/** A run in which an invalidation request is answered 204 although its purge gave up.

    Four requests without headers ask for the same key before any of them is answered.  The first
    answer is stored.  Then the purge of that key starts, and each of its three attempts is overtaken
    by the store of one more answer.
 */
module LostPurge {
  import opened Wrappers
  import opened Cache
  import opened CacheKey
  import opened SharedStore
  import opened Decision
  import opened HeaderMap
  import opened Replay
  import P = Protocol
  import opened Filter
  import opened EndToEnd
  import opened Fleet

  const TOKEN: nat := 7

  /** The surroundings of every callback; `Observed` puts in what the shared data really holds. */
  const HOST: Env := Env(0, (id: nat) => map[], true, Some(TOKEN))

  const ASK: Callback := OnHeaders([], true, HOST)

  function ANSWER(response: CheckResponse): Callback {
    OnGrpc(TOKEN, 0, Body(response))
  }

  function PURGE_HEADERS(hs: seq<Header>): Callback {
    OnHeaders(hs, false, HOST)
  }

  function PURGE_BODY(body: seq<byte>): Callback {
    OnBody(|body|, Some(body), true, HOST)
  }

  ghost function Key(cfg: Settings): string {
    CacheKeyOf(cfg, ToHttp(NO_PARTS, []))
  }

  function Asking(f: nat): seq<Event> {
    [Arrive(0, f, ASK), Host(P.Get(0))]
  }

  function Answering(f: nat, response: CheckResponse): seq<Event> {
    [Arrive(0, f, ANSWER(response)), Host(P.Get(0)), Host(P.Compute(0)), Host(P.Set(0))]
  }

  /** One attempt of the purge, on worker 1, overtaken by the store of the answer to request `f`. */
  function Overtaking(f: nat, response: CheckResponse): seq<Event> {
    [Host(P.Get(1)), Host(P.Compute(1))] + (Answering(f, response) + [Host(P.Set(1))])
  }

  function PurgeOf(key: string): InvalidationRequest {
    InvalidationRequest(1, PurgeKey, Some(key))
  }

  /** The cache is on, `hs` are the headers of an authorized invalidation request, and `body` asks for
      the purge of the key. */
  ghost predicate Fits(cfg: Settings, hs: seq<Header>, body: seq<byte>) {
    var parts := ParseHeaders(NO_PARTS, hs);
    && cfg.cacheEnabled && cfg.ttl > 0 && |body| <= cfg.maxBody
    && (ContentLength(hs).Some? ==> ContentLength(hs).value <= cfg.maxBody)
    && parts.verb == "POST" && parts.path == INVALIDATION_PATH && Authorized(cfg, parts.headers)
    && cfg.parseJson(body) == Some(PurgeOf(Key(cfg)))
  }

  // --- what the callbacks need --------------------------------------------------------------------

  ghost predicate Pending(cfg: Settings, st: FilterState) {
    st.grpcToken == Some(TOKEN) && st.cacheKey == Some(Key(cfg))
  }

  lemma AskNeeds(cfg: Settings, store: Store)
    requires cfg.cacheEnabled && Lookup(GetShard(store, ShardId(Key(cfg))), Key(cfg), 0).None?
    ensures NeedOf(cfg, FRESH, ASK) == Look(Key(cfg))
    ensures Pending(cfg, StepFilter(cfg, FRESH, Observed(ASK, 0, store)))
  {
  }

  lemma AnswerNeeds(cfg: Settings, st: FilterState, response: CheckResponse)
    requires cfg.cacheEnabled && Pending(cfg, st)
    ensures NeedOf(cfg, st, ANSWER(response)) == Save(Key(cfg), response)
  {
  }

  lemma KeyIsPrinted(cfg: Settings)
    ensures "cache:" <= Key(cfg)
  {
    KeyIsWellDefined(cfg, ToHttp(NO_PARTS, []), []);
  }

  /** The state of the invalidation request once its headers have been received. */
  ghost function HeadersRead(cfg: Settings, hs: seq<Header>, store: Store): FilterState {
    StepFilter(cfg, FRESH, Observed(PURGE_HEADERS(hs), 0, store))
  }

  ghost predicate AwaitsBody(hs: seq<Header>, st: FilterState) {
    && !st.dispatched && st.isInvalidation && st.parts == ParseHeaders(NO_PARTS, hs)
    && st.bodyBuf == [] && st.bodySeen == 0 && st.effects == [] && st.purges == []
  }

  lemma HeadersNeed(cfg: Settings, hs: seq<Header>, body: seq<byte>, store: Store)
    requires Fits(cfg, hs, body)
    ensures NeedOf(cfg, FRESH, PURGE_HEADERS(hs)) == Nothing
    ensures var st := HeadersRead(cfg, hs, store);
            AwaitsBody(hs, st)
  {
    assert NO_PARTS.(headers := map[]) == NO_PARTS;
  }

  lemma BodyNeeds(cfg: Settings, hs: seq<Header>, body: seq<byte>, st: FilterState, store: Store)
    requires Fits(cfg, hs, body) && AwaitsBody(hs, st)
    ensures NeedOf(cfg, st, PURGE_BODY(body)) == Purge(PurgeOf(Key(cfg)))
    ensures NoContent(StepFilter(cfg, st, Observed(PURGE_BODY(body), 0, store)))
  {
    KeyIsPrinted(cfg);
    assert [] + body == body;
  }

  predicate NoContent(st: FilterState) {
    |st.effects| == 1 && st.effects[0].effect == Reply(204, [], None)
  }

  // --- rounds of worker 0 ------------------------------------------------------------------------------

  predicate Calm(w: World) {
    0 !in w.busy && P.At(w.sys, 0).Idle? && w.sys.clock == 0
  }

  ghost predicate NotHeld(w: World, f: nat) {
    forall v :: v in w.busy ==> w.busy[v].request != f
  }

  /** Worker 0 has served request `f`; apart from the cache, nothing else has changed. */
  ghost predicate Served(w: World, n: World, f: nat) {
    && Calm(n) && n.busy == w.busy && n.sys.giveUps == w.sys.giveUps
    && (forall g :: g != f ==> RequestOf(n, g) == RequestOf(w, g))
    && (forall v :: v != 0 ==> P.At(n.sys, v) == P.At(w.sys, v))
  }

  lemma RunSnoc(cfg: Settings, w: World, es: seq<Event>, e: Event)
    ensures RunFrom(cfg, w, es + [e]) == StepFleet(cfg, RunFrom(cfg, w, es), e)
  {
    assert (es + [e])[..|es|] == es;
  }

  lemma {:induction false} RunConcat(cfg: Settings, w: World, a: seq<Event>, b: seq<Event>)
    ensures RunFrom(cfg, w, a + b) == RunFrom(cfg, RunFrom(cfg, w, a), b)
  {
    if b == [] {
      assert a + b == a;
    } else {
      assert (a + b)[..|a + b| - 1] == a + b[..|b| - 1];
      RunConcat(cfg, w, a, b[..|b| - 1]);
    }
  }

  lemma Run2(cfg: Settings, w: World, a: Event, b: Event)
    ensures RunFrom(cfg, w, [a, b]) == StepFleet(cfg, StepFleet(cfg, w, a), b)
  {
    RunSnoc(cfg, w, [a], b);
    RunSnoc(cfg, w, [], a);
    assert [a] + [b] == [a, b] && [] + [a] == [a];
  }

  /** A request that no worker holds needs the cache: its worker starts the operation. */
  lemma StartStep(cfg: Settings, w: World, worker: nat, f: nat, cb: Callback, need: Need)
    requires Free(w, worker, f) && need == NeedOf(cfg, RequestOf(w, f).state, cb) && !need.Nothing?
    ensures var n := StepFleet(cfg, w, Arrive(worker, f, cb));
            && n.sys == P.Next(CacheCfg(cfg), w.sys, Begin(need, worker))
            && n.requests == w.requests && n.busy == w.busy[worker := InFlight(f, cb, need)]
  {
  }

  /** A host step that does not end its worker's operation moves only the cache. */
  lemma QuietStep(cfg: Settings, w: World, step: P.Step)
    requires step.Get? || step.Compute? || step.Set?
    requires !P.At(P.Next(CacheCfg(cfg), w.sys, step), step.worker).Idle?
    ensures var n := StepFleet(cfg, w, Host(step));
            n.sys == P.Next(CacheCfg(cfg), w.sys, step) && n.requests == w.requests && n.busy == w.busy
  {
  }

  /** One that does also moves the request that was waiting. */
  lemma LastStep(cfg: Settings, w: World, step: P.Step)
    requires step.Get? || step.Set?
    requires step.worker in w.busy && w.sys.clock == 0 && Reading(w.sys, step.worker) == 0
    requires P.At(P.Next(CacheCfg(cfg), w.sys, step), step.worker).Idle?
    ensures var n := StepFleet(cfg, w, Host(step));
            var b := w.busy[step.worker];
            && n.sys == P.Next(CacheCfg(cfg), w.sys, step) && n.busy == w.busy - {step.worker}
            && RequestOf(n, b.request).state == StepFilter(cfg, RequestOf(w, b.request).state, Observed(b.cb, 0, n.sys.store))
            && forall g :: g != b.request ==> RequestOf(n, g) == RequestOf(w, g)
  {
  }

  /** The cache after worker 0 has done something: nothing but the store may differ. */
  ghost predicate SameBut0(s: P.System, t: P.System) {
    && P.At(t, 0).Idle? && t.clock == s.clock && t.giveUps == s.giveUps
    && forall v :: v != 0 ==> P.At(t, v) == P.At(s, v)
  }

  lemma LookSystem(pcfg: P.Cfg, s: P.System, key: string)
    requires P.At(s, 0).Idle?
    ensures var a := P.Next(pcfg, s, P.BeginLookup(0, key));
            var t := P.Next(pcfg, a, P.Get(0));
            P.At(a, 0) == P.Looking(key, s.clock) && a.clock == s.clock && SameBut0(s, t) && t.store == s.store
  {
  }

  lemma ServedOf(w: World, a: World, n: World, f: nat, cb: Callback, need: Need)
    requires Calm(w) && SameBut0(w.sys, n.sys)
    requires a.requests == w.requests && a.busy == w.busy[0 := InFlight(f, cb, need)] && n.busy == a.busy - {0}
    requires forall g :: g != f ==> RequestOf(n, g) == RequestOf(a, g)
    ensures Served(w, n, f)
  {
    assert n.busy == w.busy;
    forall g | g != f ensures RequestOf(n, g) == RequestOf(w, g) { assert RequestOf(a, g) == RequestOf(w, g); }
  }

  /** A new request asks, finds nothing in the cache, and waits for its answer. */
  lemma {:induction false} AskRound(cfg: Settings, w: World, f: nat)
    requires cfg.cacheEnabled && Calm(w) && NotHeld(w, f) && RequestOf(w, f) == NEW && w.sys.store == EMPTY_STORE
    ensures var n := RunFrom(cfg, w, Asking(f));
            Served(w, n, f) && Pending(cfg, RequestOf(n, f).state) && n.sys.store == EMPTY_STORE
  {
    var a := StepFleet(cfg, w, Arrive(0, f, ASK));
    var n := StepFleet(cfg, a, Host(P.Get(0)));
    AskNeeds(cfg, EMPTY_STORE);
    StartStep(cfg, w, 0, f, ASK, Look(Key(cfg)));
    LookSystem(CacheCfg(cfg), w.sys, Key(cfg));
    LastStep(cfg, a, P.Get(0));
    ServedOf(w, a, n, f, ASK, Look(Key(cfg)));
    assert RequestOf(a, f) == NEW;
    Run2(cfg, w, Arrive(0, f, ASK), Host(P.Get(0)));
  }

  /** The shard of the key holds a live entry for it, and nothing else. */
  ghost predicate Live(cfg: Settings, st: Store) {
    var m := GetShard(st, ShardId(Key(cfg)));
    ShardId(Key(cfg)) in st.cells && m.Keys == {Key(cfg)} && m[Key(cfg)].expiresAtMs > 0
  }

  predicate Versions(st: Store) {
    forall id :: id in st.cells ==> st.cells[id].version < st.nextVersion
  }

  lemma StoreSystem(pcfg: P.Cfg, s: P.System, key: string, response: CheckResponse)
    requires P.At(s, 0).Idle? && s.clock == 0
    ensures var e := EntryFor(FromCheckResponse(response), pcfg.ttl);
            var a := P.Next(pcfg, s, P.BeginStore(0, key, P.Decoded(response)));
            var b := P.Next(pcfg, a, P.Get(0));
            var c := P.Next(pcfg, b, P.Compute(0));
            var t := P.Next(pcfg, c, P.Set(0));
            && P.At(a, 0).Ready? && P.At(b, 0).Fetched? && P.At(c, 0).Armed? && c.clock == 0
            && SameBut0(s, t)
            && t.store == Write(s.store, ShardId(key),
                                StoreTransform(GetShard(s.store, ShardId(key)), 0, key, e, ShardQuota(pcfg.maxEntries)))
  {
    var e := EntryFor(FromCheckResponse(response), pcfg.ttl);
    var op, id, n := StoreOp(key, e), ShardId(key), |s.log|;
    var a := P.Next(pcfg, s, P.BeginStore(0, key, P.Decoded(response)));
    assert P.At(a, 0) == P.Ready(op, id, 0, n);
    var b := P.Next(pcfg, a, P.Get(0));
    assert P.At(b, 0) == P.Fetched(op, id, 0, n, n, GetShard(s.store, id), GetCas(s.store, id));
    var c := P.Next(pcfg, b, P.Compute(0));
    assert P.At(c, 0).Armed? && P.At(c, 0).cas == GetCas(s.store, id) && c.store == s.store;
  }

  lemma StoreAlone(m: Shard, key: string, e: CacheEntry, quota: nat)
    requires m.Keys <= {key} && quota >= 1
    ensures StoreTransform(m, 0, key, e, quota) == map[key := e]
  {
    assert Evict(m, 0)[key := e] == map[key := e];
    TopKSmall(map[key := e], quota);
  }

  lemma StoredIsLive(cfg: Settings, st: Store, response: CheckResponse)
    requires cfg.ttl > 0 && Versions(st) && GetShard(st, ShardId(Key(cfg))).Keys <= {Key(cfg)}
    ensures var e := EntryFor(FromCheckResponse(response), cfg.ttl);
            var id := ShardId(Key(cfg));
            var n := Write(st, id, StoreTransform(GetShard(st, id), 0, Key(cfg), e, ShardQuota(cfg.maxEntries)));
            Live(cfg, n) && Versions(n) && n.cells[id].version == st.nextVersion
  {
    StoreAlone(GetShard(st, ShardId(Key(cfg))), Key(cfg), EntryFor(FromCheckResponse(response), cfg.ttl), ShardQuota(cfg.maxEntries));
  }

  lemma Run4(cfg: Settings, w: World, a: Event, b: Event, c: Event, d: Event)
    ensures RunFrom(cfg, w, [a, b, c, d])
            == StepFleet(cfg, StepFleet(cfg, StepFleet(cfg, StepFleet(cfg, w, a), b), c), d)
  {
    Run2(cfg, w, a, b);
    Run2(cfg, RunFrom(cfg, w, [a, b]), c, d);
    RunConcat(cfg, w, [a, b], [c, d]);
    assert [a, b] + [c, d] == [a, b, c, d];
  }

  /** The answer to a pending request is stored. */
  lemma {:induction false} AnswerRound(cfg: Settings, w: World, f: nat, response: CheckResponse)
    requires cfg.cacheEnabled && cfg.ttl > 0 && Calm(w) && NotHeld(w, f) && Pending(cfg, RequestOf(w, f).state)
    requires Versions(w.sys.store) && GetShard(w.sys.store, ShardId(Key(cfg))).Keys <= {Key(cfg)}
    ensures var n := RunFrom(cfg, w, Answering(f, response));
            && Served(w, n, f) && Live(cfg, n.sys.store) && Versions(n.sys.store)
            && n.sys.store.cells[ShardId(Key(cfg))].version == w.sys.store.nextVersion
  {
    var need := Save(Key(cfg), response);
    AnswerNeeds(cfg, RequestOf(w, f).state, response);
    StoreSystem(CacheCfg(cfg), w.sys, Key(cfg), response);
    StoredIsLive(cfg, w.sys.store, response);
    var a := StepFleet(cfg, w, Arrive(0, f, ANSWER(response)));
    StartStep(cfg, w, 0, f, ANSWER(response), need);
    var b := StepFleet(cfg, a, Host(P.Get(0)));
    QuietStep(cfg, a, P.Get(0));
    var c := StepFleet(cfg, b, Host(P.Compute(0)));
    QuietStep(cfg, b, P.Compute(0));
    var n := StepFleet(cfg, c, Host(P.Set(0)));
    LastStep(cfg, c, P.Set(0));
    ServedOf(w, a, n, f, ANSWER(response), need);
    Run4(cfg, w, Arrive(0, f, ANSWER(response)), Host(P.Get(0)), Host(P.Compute(0)), Host(P.Set(0)));
  }

  // --- the purge, on worker 1 --------------------------------------------------------------------------

  const PURGER: nat := 4

  /** `n` attempts of the purge have failed, the answers to the requests after number `n` are still to
      come, and the key is in the cache. */
  ghost predicate Purging(cfg: Settings, hs: seq<Header>, body: seq<byte>, w: World, n: nat) {
    var p := P.At(w.sys, 1);
    && Calm(w) && w.busy == map[1 := InFlight(PURGER, PURGE_BODY(body), Purge(PurgeOf(Key(cfg))))]
    && p.Ready? && p.op == PurgeKeyOp(Key(cfg)) && p.shardId == ShardId(Key(cfg)) && p.attempt == n
    && w.sys.giveUps == [] && Live(cfg, w.sys.store) && Versions(w.sys.store)
    && AwaitsBody(hs, RequestOf(w, PURGER).state)
    && forall f :: n < f < PURGER ==> Pending(cfg, RequestOf(w, f).state)
  }

  /** The purge has given up, its request has been answered 204, and the key is still in the cache. */
  ghost predicate PurgeLost(cfg: Settings, w: World) {
    && |w.sys.giveUps| == 1 && w.sys.giveUps[0].op == PurgeKeyOp(Key(cfg))
    && NoContent(RequestOf(w, PURGER).state)
    && Lookup(GetShard(w.sys.store, ShardId(Key(cfg))), Key(cfg), w.sys.clock).Some?
  }

  /** The purge reads the shard. */
  lemma PurgeReads(pcfg: P.Cfg, s: P.System, key: string)
    requires var p := P.At(s, 1); p.Ready? && p.op == PurgeKeyOp(key) && p.shardId in s.store.cells
    ensures var p := P.At(s, 1);
            var a := P.Next(pcfg, s, P.Get(1));
            var b := P.Next(pcfg, a, P.Compute(1));
            && P.At(a, 1).Fetched? && P.At(b, 1).Armed?
            && P.At(b, 1).op == p.op && P.At(b, 1).shardId == p.shardId && P.At(b, 1).attempt == p.attempt
            && P.At(b, 1).cas == Some(s.store.cells[p.shardId].version)
            && a.store == b.store == s.store && a.clock == b.clock == s.clock && a.giveUps == b.giveUps == s.giveUps
            && forall v :: v != 1 ==> P.At(b, v) == P.At(s, v)
  {
  }

  /** The purge is refused, because the shard has another version. */
  lemma PurgeRefused(pcfg: P.Cfg, s: P.System, key: string)
    requires var p := P.At(s, 1);
             p.Armed? && p.op == PurgeKeyOp(key) && p.shardId in s.store.cells && p.cas.Some?
             && p.cas.value != s.store.cells[p.shardId].version
    ensures var p, t := P.At(s, 1), P.Next(pcfg, s, P.Set(1));
            && t.store == s.store && t.clock == s.clock && (forall v :: v != 1 ==> P.At(t, v) == P.At(s, v))
            && if p.attempt < 2 then
                 P.At(t, 1) == P.Ready(p.op, p.shardId, p.attempt + 1, p.startAt) && t.giveUps == s.giveUps
               else
                 P.At(t, 1).Idle? && |t.giveUps| == |s.giveUps| + 1 && t.giveUps[..|s.giveUps|] == s.giveUps
                 && t.giveUps[|s.giveUps|].op == p.op
  {
  }

  /** One attempt of the purge, up to its write. */
  lemma {:induction false} Overtaken(cfg: Settings, hs: seq<Header>, body: seq<byte>, w: World, n: nat, response: CheckResponse)
    requires Fits(cfg, hs, body) && Purging(cfg, hs, body, w, n) && n < 3
    ensures var m := RunFrom(cfg, w, [Host(P.Get(1)), Host(P.Compute(1))] + Answering(n + 1, response));
            && TooLate(cfg, m, n) && m.busy == w.busy
            && forall g :: g != n + 1 ==> RequestOf(m, g) == RequestOf(w, g)
  {
    PurgeReads(CacheCfg(cfg), w.sys, Key(cfg));
    var a := StepFleet(cfg, w, Host(P.Get(1)));
    QuietStep(cfg, w, P.Get(1));
    var b := StepFleet(cfg, a, Host(P.Compute(1)));
    QuietStep(cfg, a, P.Compute(1));
    Run2(cfg, w, Host(P.Get(1)), Host(P.Compute(1)));
    assert forall g :: RequestOf(b, g) == RequestOf(w, g);
    AnswerRound(cfg, b, n + 1, response);
    RunConcat(cfg, w, [Host(P.Get(1)), Host(P.Compute(1))], Answering(n + 1, response));
  }

  /** Where an attempt of the purge stands just before its write, which another write has overtaken. */
  ghost predicate TooLate(cfg: Settings, m: World, n: nat) {
    var p := P.At(m.sys, 1);
    && Calm(m) && m.sys.giveUps == [] && Live(cfg, m.sys.store) && Versions(m.sys.store)
    && p.Armed? && p.op == PurgeKeyOp(Key(cfg)) && p.shardId == ShardId(Key(cfg)) && p.attempt == n
    && p.cas.Some? && p.cas.value != m.sys.store.cells[p.shardId].version
  }

  lemma TriesAgain(cfg: Settings, m: World, t: World, n: nat)
    requires TooLate(cfg, m, n) && n < 2
    requires t.sys == P.Next(CacheCfg(cfg), m.sys, P.Set(1)) && t.busy == m.busy
    ensures var p := P.At(t.sys, 1);
            && Calm(t) && t.sys.giveUps == [] && Live(cfg, t.sys.store) && Versions(t.sys.store)
            && p.Ready? && p.op == PurgeKeyOp(Key(cfg)) && p.shardId == ShardId(Key(cfg)) && p.attempt == n + 1
  {
    PurgeRefused(CacheCfg(cfg), m.sys, Key(cfg));
  }

  lemma {:induction false} OvertakenAgain(cfg: Settings, hs: seq<Header>, body: seq<byte>, w: World, n: nat, response: CheckResponse)
    requires Fits(cfg, hs, body) && Purging(cfg, hs, body, w, n) && n < 2
    ensures Purging(cfg, hs, body, RunFrom(cfg, w, Overtaking(n + 1, response)), n + 1)
  {
    var m := RunFrom(cfg, w, [Host(P.Get(1)), Host(P.Compute(1))] + Answering(n + 1, response));
    var t := StepFleet(cfg, m, Host(P.Set(1)));
    Overtaken(cfg, hs, body, w, n, response);
    PurgeRefused(CacheCfg(cfg), m.sys, Key(cfg));
    QuietStep(cfg, m, P.Set(1));
    TriesAgain(cfg, m, t, n);
    OvertakingSplit(cfg, w, n + 1, response);
    assert forall g :: RequestOf(t, g) == RequestOf(m, g);
  }

  lemma {:induction false} OvertakenForGood(cfg: Settings, hs: seq<Header>, body: seq<byte>, w: World, response: CheckResponse)
    requires Fits(cfg, hs, body) && Purging(cfg, hs, body, w, 2)
    ensures PurgeLost(cfg, RunFrom(cfg, w, Overtaking(3, response)))
  {
    var m := RunFrom(cfg, w, [Host(P.Get(1)), Host(P.Compute(1))] + Answering(3, response));
    Overtaken(cfg, hs, body, w, 2, response);
    PurgeRefused(CacheCfg(cfg), m.sys, Key(cfg));
    LastStep(cfg, m, P.Set(1));
    OvertakingSplit(cfg, w, 3, response);
    BodyNeeds(cfg, hs, body, RequestOf(m, PURGER).state, m.sys.store);
  }

  lemma OvertakingSplit(cfg: Settings, w: World, f: nat, response: CheckResponse)
    ensures var early := [Host(P.Get(1)), Host(P.Compute(1))] + Answering(f, response);
            RunFrom(cfg, w, Overtaking(f, response)) == StepFleet(cfg, RunFrom(cfg, w, early), Host(P.Set(1)))
  {
    var early := [Host(P.Get(1)), Host(P.Compute(1))] + Answering(f, response);
    RunSnoc(cfg, w, early, Host(P.Set(1)));
    assert early + [Host(P.Set(1))] == Overtaking(f, response);
  }

  // --- the whole run -------------------------------------------------------------------------------

  /** Requests 0, .., `n - 1` wait for their answers; nothing else has happened. */
  ghost predicate Asked(cfg: Settings, w: World, n: nat) {
    && Calm(w) && w.busy == map[] && w.sys.giveUps == [] && w.sys.store == EMPTY_STORE && P.At(w.sys, 1).Idle?
    && forall f: nat :: if f < n then Pending(cfg, RequestOf(w, f).state) else RequestOf(w, f) == NEW
  }

  lemma {:induction false} OneMoreAsks(cfg: Settings, w: World, n: nat)
    requires cfg.cacheEnabled && Asked(cfg, w, n)
    ensures Asked(cfg, RunFrom(cfg, w, Asking(n)), n + 1)
  {
    AskRound(cfg, w, n);
    ServedAsk(cfg, w, RunFrom(cfg, w, Asking(n)), n);
  }

  lemma ServedAsk(cfg: Settings, w: World, m: World, n: nat)
    requires Asked(cfg, w, n)
    requires Served(w, m, n) && Pending(cfg, RequestOf(m, n).state) && m.sys.store == EMPTY_STORE
    ensures Asked(cfg, m, n + 1)
  {
    forall f: nat ensures if f < n + 1 then Pending(cfg, RequestOf(m, f).state) else RequestOf(m, f) == NEW {
      if f != n { assert RequestOf(m, f) == RequestOf(w, f); }
    }
  }

  function StartingPurge(hs: seq<Header>, body: seq<byte>): seq<Event> {
    [Arrive(1, PURGER, PURGE_HEADERS(hs)), Arrive(1, PURGER, PURGE_BODY(body))]
  }

  /** A callback that needs nothing moves its request at once. */
  lemma IdleStep(cfg: Settings, w: World, worker: nat, f: nat, cb: Callback)
    requires Free(w, worker, f) && NeedOf(cfg, RequestOf(w, f).state, cb).Nothing? && w.sys.clock == 0
    ensures var n := StepFleet(cfg, w, Arrive(worker, f, cb));
            && n.sys == w.sys && n.busy == w.busy
            && RequestOf(n, f).state == StepFilter(cfg, RequestOf(w, f).state, Observed(cb, 0, w.sys.store))
            && forall g :: g != f ==> RequestOf(n, g) == RequestOf(w, g)
  {
  }

  /** The key is in the cache, the answers to requests 1, 2 and 3 are still to come, and the purging
      request has had no callback yet. */
  ghost predicate Primed(cfg: Settings, w: World) {
    && Calm(w) && w.busy == map[] && P.At(w.sys, 1).Idle? && w.sys.giveUps == []
    && Live(cfg, w.sys.store) && Versions(w.sys.store) && RequestOf(w, PURGER) == NEW
    && forall f :: 0 < f < PURGER ==> Pending(cfg, RequestOf(w, f).state)
  }

  lemma PurgeBegins(pcfg: P.Cfg, s: P.System, key: string)
    requires P.At(s, 1).Idle?
    ensures var t := P.Next(pcfg, s, Begin(Purge(PurgeOf(key)), 1));
            && P.At(t, 1) == P.Ready(PurgeKeyOp(key), ShardId(key), 0, |s.log|) && P.At(t, 0) == P.At(s, 0)
            && t.store == s.store && t.clock == s.clock && t.giveUps == s.giveUps
  {
  }

  lemma PurgeIsUnderWay(cfg: Settings, hs: seq<Header>, body: seq<byte>, w: World, n: World)
    requires Primed(cfg, w) && AwaitsBody(hs, RequestOf(n, PURGER).state)
    requires n.sys == P.Next(CacheCfg(cfg), w.sys, Begin(Purge(PurgeOf(Key(cfg))), 1))
    requires n.busy == w.busy[1 := InFlight(PURGER, PURGE_BODY(body), Purge(PurgeOf(Key(cfg))))]
    requires forall g :: g != PURGER ==> RequestOf(n, g) == RequestOf(w, g)
    ensures Purging(cfg, hs, body, n, 0)
  {
    PurgeBegins(CacheCfg(cfg), w.sys, Key(cfg));
  }

  lemma {:induction false} PurgeStarts(cfg: Settings, hs: seq<Header>, body: seq<byte>, w: World)
    requires Fits(cfg, hs, body) && Primed(cfg, w)
    ensures Purging(cfg, hs, body, RunFrom(cfg, w, StartingPurge(hs, body)), 0)
  {
    HeadersNeed(cfg, hs, body, w.sys.store);
    IdleStep(cfg, w, 1, PURGER, PURGE_HEADERS(hs));
    var a := StepFleet(cfg, w, Arrive(1, PURGER, PURGE_HEADERS(hs)));
    BodyNeeds(cfg, hs, body, RequestOf(a, PURGER).state, w.sys.store);
    StartStep(cfg, a, 1, PURGER, PURGE_BODY(body), Purge(PurgeOf(Key(cfg))));
    var b := StepFleet(cfg, a, Arrive(1, PURGER, PURGE_BODY(body)));
    Run2(cfg, w, Arrive(1, PURGER, PURGE_HEADERS(hs)), Arrive(1, PURGER, PURGE_BODY(body)));
    assert forall g :: RequestOf(b, g) == RequestOf(a, g);
    PurgeIsUnderWay(cfg, hs, body, w, b);
  }

  function Prelude(response: CheckResponse): seq<Event> {
    Asking(0) + Asking(1) + Asking(2) + Asking(3) + Answering(0, response)
  }

  lemma {:induction false} PreludeRuns(cfg: Settings, response: CheckResponse)
    requires cfg.cacheEnabled && cfg.ttl > 0
    ensures Primed(cfg, RunFleet(cfg, Prelude(response)))
  {
    var a := RunFrom(cfg, START, Asking(0));
    OneMoreAsks(cfg, START, 0);
    var b := RunFrom(cfg, a, Asking(1));
    OneMoreAsks(cfg, a, 1);
    RunConcat(cfg, START, Asking(0), Asking(1));
    var c := RunFrom(cfg, b, Asking(2));
    OneMoreAsks(cfg, b, 2);
    RunConcat(cfg, START, Asking(0) + Asking(1), Asking(2));
    var d := RunFrom(cfg, c, Asking(3));
    OneMoreAsks(cfg, c, 3);
    RunConcat(cfg, START, Asking(0) + Asking(1) + Asking(2), Asking(3));
    AnswerRound(cfg, d, 0, response);
    RunConcat(cfg, START, Asking(0) + Asking(1) + Asking(2) + Asking(3), Answering(0, response));
  }

  /** Attempts `n`, .., 2 of the purge, each overtaken. */
  function Overtakings(n: nat, response: CheckResponse): seq<Event>
    requires n <= 2
    decreases 2 - n
  {
    Overtaking(n + 1, response) + if n == 2 then [] else Overtakings(n + 1, response)
  }

  lemma {:induction false} AttemptsFail(cfg: Settings, hs: seq<Header>, body: seq<byte>, w: World, n: nat, response: CheckResponse)
    requires Fits(cfg, hs, body) && n <= 2 && Purging(cfg, hs, body, w, n)
    ensures PurgeLost(cfg, RunFrom(cfg, w, Overtakings(n, response)))
    decreases 2 - n
  {
    if n == 2 {
      OvertakenForGood(cfg, hs, body, w, response);
      assert Overtakings(n, response) == Overtaking(3, response);
    } else {
      OvertakenAgain(cfg, hs, body, w, n, response);
      AttemptsFail(cfg, hs, body, RunFrom(cfg, w, Overtaking(n + 1, response)), n + 1, response);
      RunConcat(cfg, w, Overtaking(n + 1, response), Overtakings(n + 1, response));
    }
  }

  function LosingRun(hs: seq<Header>, body: seq<byte>, response: CheckResponse): seq<Event> {
    Prelude(response) + StartingPurge(hs, body) + Overtakings(0, response)
  }

  /** A reply of 204 does not mean that anything was purged: in this run the purge gives up, its request
      is answered 204, and the key it names is still found in the cache. */
  lemma {:induction false} NoContentWithoutPurge(cfg: Settings, hs: seq<Header>, body: seq<byte>, response: CheckResponse)
    requires Fits(cfg, hs, body)
    ensures PurgeLost(cfg, RunFleet(cfg, LosingRun(hs, body, response)))
  {
    var w := RunFleet(cfg, Prelude(response));
    PreludeRuns(cfg, response);
    PurgeStarts(cfg, hs, body, w);
    RunConcat(cfg, START, Prelude(response), StartingPurge(hs, body));
    AttemptsFail(cfg, hs, body, RunFrom(cfg, w, StartingPurge(hs, body)), 0, response);
    RunConcat(cfg, START, Prelude(response) + StartingPurge(hs, body), Overtakings(0, response));
  }
}
