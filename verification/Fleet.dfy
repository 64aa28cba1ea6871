/** Many requests on many workers over one shared cache.

    A callback that needs the shared data starts the matching cache operation on its worker, and the
    filter moves when that operation has ended; meanwhile all other workers may do anything.  A
    callback that does not need the shared data moves its filter at once.
 */
module Fleet {
  import opened Wrappers
  import opened Cache
  import opened CacheKey
  import opened SharedStore
  import opened Decision
  import opened HeaderMap
  import opened Replay
  import P = Protocol
  import PT = ProtocolTheorems
  import opened Filter
  import opened FilterTheorems
  import A = AuthzHttp
  import opened EndToEnd

  // --- the machine ---------------------------------------------------------------------------------

  datatype Need = Nothing | Look(key: string) | Save(key: string, response: CheckResponse) | Purge(request: InvalidationRequest)

  /** What the callback needs of the shared data: to look up the check it builds, to store the answer it
      brings, or to purge. */
  ghost function NeedOf(cfg: Settings, st: FilterState, cb: Callback): Need {
    var n := StepFilter(cfg, st, cb);
    if cfg.cacheEnabled && |n.checks| > |st.checks| then Look(n.checks[|st.checks|].key)
    else if |n.stores| > |st.stores| && n.stores[|st.stores|].key.Some? && cb.OnGrpc? && cb.body.Body? then
      Save(n.stores[|st.stores|].key.value, cb.body.response)
    else if |n.purges| > |st.purges| then Purge(n.purges[|st.purges|])
    else Nothing
  }

  function Begin(need: Need, w: nat): P.Step
    requires !need.Nothing?
  {
    match need
    case Look(key) => P.BeginLookup(w, key)
    case Save(key, response) => P.BeginStore(w, key, P.Decoded(response))
    case Purge(request) =>
      if request.op.PurgeKey? && request.key.Some? then P.BeginPurgeKey(w, request.key.value) else P.BeginPurgeAll(w)
  }

  /** A request: its filter, the callbacks it has had, and how far the cache's schedule had run when each
      of them read the shared data. */
  datatype Request = Request(state: FilterState, callbacks: seq<Callback>, readAt: seq<nat>)

  const NEW: Request := Request(FRESH, [], [])

  /** Callback `cb` of request `request`, waiting for its worker's cache operation. */
  datatype InFlight = InFlight(request: nat, cb: Callback, need: Need)

  /** The callback, number `turn` of its request, that brought an answer to the cache. */
  datatype Source = Source(request: nat, turn: nat, cb: Callback)

  datatype World = World(
    sys: P.System,
    requests: map<nat, Request>,
    busy: map<nat, InFlight>,      // by worker
    schedule: seq<P.Step>,         // history from here on
    sources: seq<Source>)

  datatype Event = Arrive(worker: nat, request: nat, cb: Callback) | Host(step: P.Step)

  const START: World := World(P.INIT, map[], map[], [], [])

  function RequestOf(w: World, f: nat): Request {
    if f in w.requests then w.requests[f] else NEW
  }

  /** The callback with the clock reading `now` and the shared data `st`. */
  function Observed(cb: Callback, now: u64, st: Store): Callback {
    if cb.OnGrpc? then cb else A.Observing(cb.(env := cb.env.(now := now)), st)
  }

  ghost function Deliver(cfg: Settings, w: World, f: nat, cb: Callback, now: u64): World {
    var r := RequestOf(w, f);
    var seen := Observed(cb, now, w.sys.store);
    w.(requests := w.requests[f := Request(StepFilter(cfg, r.state, seen), r.callbacks + [seen], r.readAt + [|w.schedule|])])
  }

  function HostMoves(cfg: Settings, w: World, step: P.Step): World {
    w.(sys := P.Next(CacheCfg(cfg), w.sys, step), schedule := w.schedule + [step])
  }

  predicate Free(w: World, worker: nat, f: nat) {
    worker !in w.busy && P.At(w.sys, worker).Idle? && forall v :: v in w.busy ==> w.busy[v].request != f
  }

  ghost function Accept(cfg: Settings, w: World, worker: nat, f: nat, cb: Callback): World {
    var need := NeedOf(cfg, RequestOf(w, f).state, cb);
    if need.Nothing? then Deliver(cfg, w, f, cb, w.sys.clock)
    else HostMoves(cfg, w, Begin(need, worker)).(
           busy := w.busy[worker := InFlight(f, cb, need)],
           sources := if need.Save? then w.sources + [Source(f, |RequestOf(w, f).callbacks|, cb)] else w.sources)
  }

  predicate OperationEnds(w: World, next: World, step: P.Step) {
    (step.Get? || step.Set?) && step.worker in w.busy && P.At(next.sys, step.worker).Idle?
  }

  /** The reading by which the operation of `worker` decides expiry. */
  function Reading(s: P.System, worker: nat): u64 {
    var p := P.At(s, worker);
    if p.Looking? then p.now else s.clock
  }

  ghost function StepFleet(cfg: Settings, w: World, event: Event): World {
    match event
    case Arrive(worker, f, cb) => if Free(w, worker, f) then Accept(cfg, w, worker, f, cb) else w
    case Host(step) =>
      if !(step.Tick? || step.Get? || step.Compute? || step.Set?) then w
      else
        var next := HostMoves(cfg, w, step);
        if OperationEnds(w, next, step) then
          Deliver(cfg, next.(busy := w.busy - {step.worker}), w.busy[step.worker].request, w.busy[step.worker].cb,
                  Reading(w.sys, step.worker))
        else next
  }

  ghost function RunFrom(cfg: Settings, w: World, events: seq<Event>): World {
    if events == [] then w else StepFleet(cfg, RunFrom(cfg, w, events[..|events| - 1]), events[|events| - 1])
  }

  ghost function RunFleet(cfg: Settings, events: seq<Event>): World {
    RunFrom(cfg, START, events)
  }

  // --- the invariant -----------------------------------------------------------------------------

  /** `cb` brings a decoded answer to the pending call, and `key` is the key of the request that was
      sent in this call. */
  ghost predicate AnswersCall(cfg: Settings, st: FilterState, cb: Callback, key: string) {
    && cb.OnGrpc? && cb.status == 0 && cb.body.Body?
    && st.calls != [] && st.grpcToken == Some(cb.token) == Some(st.calls[0].token)
    && key == CacheKeyOf(cfg, st.calls[0].request)
  }

  ghost predicate SourceOk(cfg: Settings, w: World, src: Source, a: P.Answer) {
    var cbs := RequestOf(w, src.request).callbacks;
    && src.turn <= |cbs| && AnswersCall(cfg, RunFilter(cfg, cbs[..src.turn]), src.cb, a.key)
    && a.outcome == P.Decoded(src.cb.body.response)
  }

  predicate CarriesOut(p: P.Worker, need: Need) {
    match need
    case Nothing => false
    case Look(key) => p.Looking? && p.key == key
    case Save(key, response) =>
      !p.Idle? && !p.Looking? && p.op.StoreOp? && p.op.key == key && p.op.entry == EntryFor(FromCheckResponse(response), p.op.entry.expiresAtMs)
    case Purge(request) =>
      !p.Idle? && !p.Looking?
      && if request.op.PurgeKey? && request.key.Some? then p.op == PurgeKeyOp(request.key.value) else p.op == PurgeAllOp
  }

  ghost predicate BusyOk(cfg: Settings, w: World, v: nat)
    requires v in w.busy
  {
    var b := w.busy[v];
    CarriesOut(P.At(w.sys, v), b.need) && NeedOf(cfg, RequestOf(w, b.request).state, b.cb) == b.need
  }

  ghost predicate RequestOk(cfg: Settings, w: World, r: Request) {
    r.state == RunFilter(cfg, r.callbacks) && ReadsAt(cfg, w.schedule, r.readAt, r.callbacks)
  }

  ghost predicate RequestsOk(cfg: Settings, w: World) {
    forall f :: RequestOk(cfg, w, RequestOf(w, f))
  }

  ghost predicate SourcesOk(cfg: Settings, w: World) {
    && |w.sources| == |w.sys.answers|
    && forall j :: 0 <= j < |w.sources| ==> SourceOk(cfg, w, w.sources[j], w.sys.answers[j])
  }

  /** No request is held by two workers. */
  ghost predicate WorkersOk(cfg: Settings, w: World) {
    && (forall v :: v in w.busy ==> BusyOk(cfg, w, v))
    && (forall u, v :: u in w.busy && v in w.busy && u != v ==> w.busy[u].request != w.busy[v].request)
  }

  ghost predicate FleetInv(cfg: Settings, w: World) {
    w.sys == P.Run(CacheCfg(cfg), w.schedule) && RequestsOk(cfg, w) && SourcesOk(cfg, w) && WorkersOk(cfg, w)
  }

  // --- preservation ------------------------------------------------------------------------------

  lemma ReadsLonger(cfg: Settings, steps: seq<P.Step>, step: P.Step, at: seq<nat>, cbs: seq<Callback>)
    requires ReadsAt(cfg, steps, at, cbs)
    ensures ReadsAt(cfg, steps + [step], at, cbs)
  {
    forall i | 0 <= i < |cbs| ensures (steps + [step])[..at[i]] == steps[..at[i]] {}
  }

  /** A step of the host, of any worker, before anything is delivered. */
  lemma HostMovesKeeps(cfg: Settings, w: World, step: P.Step)
    requires FleetInv(cfg, w)
    ensures var n := HostMoves(cfg, w, step);
            n.sys == P.Run(CacheCfg(cfg), n.schedule) && RequestsOk(cfg, n)
  {
    var n := HostMoves(cfg, w, step);
    PT.RunSnoc(CacheCfg(cfg), w.schedule, step);
    forall f ensures RequestOk(cfg, n, RequestOf(n, f)) {
      assert RequestOk(cfg, w, RequestOf(w, f));
      ReadsLonger(cfg, w.schedule, step, RequestOf(w, f).readAt, RequestOf(w, f).callbacks);
    }
  }

  lemma DeliveredOk(cfg: Settings, w: World, r: Request, seen: Callback)
    requires w.sys == P.Run(CacheCfg(cfg), w.schedule) && RequestOk(cfg, w, r)
    requires !seen.OnGrpc? ==> forall id :: seen.env.shards(id) == GetShard(w.sys.store, id)
    ensures RequestOk(cfg, w, Request(StepFilter(cfg, r.state, seen), r.callbacks + [seen], r.readAt + [|w.schedule|]))
  {
    var cbs, at := r.callbacks + [seen], r.readAt + [|w.schedule|];
    assert cbs[..|cbs| - 1] == r.callbacks;
    assert w.schedule[..|w.schedule|] == w.schedule;
    forall i | 0 <= i < |cbs|
      ensures at[i] <= |w.schedule| && (!cbs[i].OnGrpc? ==> Reads(CacheCfg(cfg), w.schedule[..at[i]], cbs[i].env))
    {
      if i < |r.callbacks| { assert cbs[i] == r.callbacks[i] && at[i] == r.readAt[i]; }
    }
  }

  lemma SourceStays(cfg: Settings, w: World, n: World, src: Source, a: P.Answer)
    requires SourceOk(cfg, w, src, a)
    requires RequestOf(w, src.request).callbacks <= RequestOf(n, src.request).callbacks
    ensures SourceOk(cfg, n, src, a)
  {
    assert RequestOf(w, src.request).callbacks[..src.turn] == RequestOf(n, src.request).callbacks[..src.turn];
  }

  lemma SourcesStay(cfg: Settings, w: World, n: World)
    requires SourcesOk(cfg, w) && n.sources == w.sources && n.sys.answers == w.sys.answers
    requires forall f :: RequestOf(w, f).callbacks <= RequestOf(n, f).callbacks
    ensures SourcesOk(cfg, n)
  {
    forall j | 0 <= j < |n.sources| ensures SourceOk(cfg, n, n.sources[j], n.sys.answers[j]) {
      SourceStays(cfg, w, n, w.sources[j], w.sys.answers[j]);
    }
  }

  lemma {:induction false} WorkersStay(cfg: Settings, w: World, n: World)
    requires WorkersOk(cfg, w)
    requires forall v :: v in n.busy ==>
               && v in w.busy && n.busy[v] == w.busy[v] && CarriesOut(P.At(n.sys, v), n.busy[v].need)
               && RequestOf(n, n.busy[v].request) == RequestOf(w, n.busy[v].request)
    ensures WorkersOk(cfg, n)
  {
    forall v | v in n.busy ensures BusyOk(cfg, n, v) { assert BusyOk(cfg, w, v); }
  }

  /** Moving a request that no worker holds keeps everything. */
  lemma {:induction false} MovedKeeps(cfg: Settings, w: World, f: nat, r: Request)
    requires FleetInv(cfg, w) && forall v :: v in w.busy ==> w.busy[v].request != f
    requires RequestOk(cfg, w, r) && RequestOf(w, f).callbacks <= r.callbacks
    ensures FleetInv(cfg, w.(requests := w.requests[f := r]))
  {
    var n := w.(requests := w.requests[f := r]);
    forall g ensures RequestOk(cfg, n, RequestOf(n, g)) && RequestOf(w, g).callbacks <= RequestOf(n, g).callbacks {
      assert RequestOk(cfg, w, RequestOf(w, g));
    }
    SourcesStay(cfg, w, n);
    forall v | v in n.busy ensures CarriesOut(P.At(n.sys, v), n.busy[v].need) { assert BusyOk(cfg, w, v); }
    WorkersStay(cfg, w, n);
  }

  lemma {:induction false} DeliverKeeps(cfg: Settings, w: World, f: nat, cb: Callback, now: u64)
    requires FleetInv(cfg, w) && forall v :: v in w.busy ==> w.busy[v].request != f
    ensures FleetInv(cfg, Deliver(cfg, w, f, cb, now))
  {
    var r := RequestOf(w, f);
    var seen := Observed(cb, now, w.sys.store);
    assert RequestOk(cfg, w, r);
    DeliveredOk(cfg, w, r, seen);
    MovedKeeps(cfg, w, f, Request(StepFilter(cfg, r.state, seen), r.callbacks + [seen], r.readAt + [|w.schedule|]));
  }

  /** An answer is stored only when it answers the call, and under the key of the request sent. */
  lemma {:induction false} SaveAnswersCall(cfg: Settings, cbs: seq<Callback>, cb: Callback)
    requires NeedOf(cfg, RunFilter(cfg, cbs), cb).Save?
    ensures AnswersCall(cfg, RunFilter(cfg, cbs), cb, NeedOf(cfg, RunFilter(cfg, cbs), cb).key)
    ensures NeedOf(cfg, RunFilter(cfg, cbs), cb).response == cb.body.response
  {
    RunDelta(cfg, cbs);
    StepDelta(cfg, RunFilter(cfg, cbs), cb);
  }

  /** The answer that a callback brings has that callback as its source. */
  lemma {:induction false} NewSource(cfg: Settings, w: World, n: World, f: nat, cb: Callback, a: P.Answer)
    requires SourcesOk(cfg, w) && n.requests == w.requests
    requires n.sources == w.sources + [Source(f, |RequestOf(w, f).callbacks|, cb)] && n.sys.answers == w.sys.answers + [a]
    requires AnswersCall(cfg, RunFilter(cfg, RequestOf(w, f).callbacks), cb, a.key) && a.outcome == P.Decoded(cb.body.response)
    ensures SourcesOk(cfg, n)
  {
    assert RequestOf(w, f).callbacks[..|RequestOf(w, f).callbacks|] == RequestOf(w, f).callbacks;
    forall j | 0 <= j < |n.sources| ensures SourceOk(cfg, n, n.sources[j], n.sys.answers[j]) {
      if j < |w.sources| { SourceStays(cfg, w, n, w.sources[j], w.sys.answers[j]); }
    }
  }

  lemma BeginStarts(pcfg: P.Cfg, s: P.System, need: Need, worker: nat)
    requires !need.Nothing? && P.At(s, worker).Idle?
    ensures var t := P.Next(pcfg, s, Begin(need, worker));
            && CarriesOut(P.At(t, worker), need)
            && (forall v :: v != worker ==> P.At(t, v) == P.At(s, v))
            && t.answers == if need.Save? then s.answers + [P.Answer(worker, need.key, P.Decoded(need.response), s.clock, |s.log|)] else s.answers
  {
  }

  lemma {:induction false} OneMoreWorker(cfg: Settings, w: World, n: World, worker: nat, b: InFlight)
    requires WorkersOk(cfg, w) && Free(w, worker, b.request)
    requires n.requests == w.requests && n.busy == w.busy[worker := b]
    requires CarriesOut(P.At(n.sys, worker), b.need) && NeedOf(cfg, RequestOf(w, b.request).state, b.cb) == b.need
    requires forall v :: v != worker ==> P.At(n.sys, v) == P.At(w.sys, v)
    ensures WorkersOk(cfg, n)
  {
    forall v | v in n.busy ensures BusyOk(cfg, n, v) {
      assert v != worker ==> BusyOk(cfg, w, v);
      assert RequestOf(n, n.busy[v].request) == RequestOf(w, n.busy[v].request);
    }
  }

  lemma RequestsStay(cfg: Settings, w: World, n: World)
    requires RequestsOk(cfg, w) && n.requests == w.requests && n.schedule == w.schedule
    ensures RequestsOk(cfg, n)
  {
    forall f ensures RequestOk(cfg, n, RequestOf(n, f)) {
      assert RequestOf(n, f) == RequestOf(w, f) && RequestOk(cfg, w, RequestOf(w, f));
    }
  }

  /** Starting an operation for a request that no worker holds, on a free worker. */
  lemma {:induction false} StartKeeps(cfg: Settings, w: World, worker: nat, f: nat, cb: Callback, need: Need, n: World)
    requires FleetInv(cfg, w) && Free(w, worker, f)
    requires !need.Nothing? && need == NeedOf(cfg, RequestOf(w, f).state, cb)
    requires var moved := HostMoves(cfg, w, Begin(need, worker));
             n == moved.(busy := w.busy[worker := InFlight(f, cb, need)], sources := n.sources)
    requires SourcesOk(cfg, n)
    ensures FleetInv(cfg, n)
  {
    var moved := HostMoves(cfg, w, Begin(need, worker));
    HostMovesKeeps(cfg, w, Begin(need, worker));
    BeginStarts(CacheCfg(cfg), w.sys, need, worker);
    RequestsStay(cfg, moved, n);
    OneMoreWorker(cfg, w, n, worker, InFlight(f, cb, need));
  }

  lemma {:induction false} AcceptKeeps(cfg: Settings, w: World, worker: nat, f: nat, cb: Callback)
    requires FleetInv(cfg, w) && Free(w, worker, f)
    ensures FleetInv(cfg, Accept(cfg, w, worker, f, cb))
  {
    var r := RequestOf(w, f);
    var need := NeedOf(cfg, r.state, cb);
    var n := Accept(cfg, w, worker, f, cb);
    assert RequestOk(cfg, w, r);
    if need.Nothing? {
      DeliverKeeps(cfg, w, f, cb, w.sys.clock);
    } else {
      BeginStarts(CacheCfg(cfg), w.sys, need, worker);
      if need.Save? {
        SaveAnswersCall(cfg, r.callbacks, cb);
        NewSource(cfg, w, n, f, cb, P.Answer(worker, need.key, P.Decoded(need.response), w.sys.clock, |w.sys.log|));
      } else {
        SourcesStay(cfg, w, n);
      }
      StartKeeps(cfg, w, worker, f, cb, need, n);
    }
  }

  predicate Moves(step: P.Step) {
    step.Tick? || step.Get? || step.Compute? || step.Set?
  }

  /** A worker's operation stays what it is until it ends. */
  lemma OperationStays(pcfg: P.Cfg, s: P.System, step: P.Step, v: nat, need: Need)
    requires Moves(step) && CarriesOut(P.At(s, v), need)
    ensures P.At(P.Next(pcfg, s, step), v).Idle? || CarriesOut(P.At(P.Next(pcfg, s, step), v), need)
    ensures P.At(P.Next(pcfg, s, step), v).Idle? ==> (step.Get? || step.Set?) && step.worker == v
  {
  }

  lemma AnswersStay(pcfg: P.Cfg, s: P.System, step: P.Step)
    requires Moves(step)
    ensures P.Next(pcfg, s, step).answers == s.answers
  {
  }

  lemma {:induction false} OperationsStay(cfg: Settings, w: World, step: P.Step, n: World)
    requires WorkersOk(cfg, w) && Moves(step) && n.sys == P.Next(CacheCfg(cfg), w.sys, step) && n.requests == w.requests
    requires forall v :: v in n.busy ==> v in w.busy && n.busy[v] == w.busy[v]
    requires forall v :: v in n.busy && (step.Get? || step.Set?) && step.worker == v ==> !P.At(n.sys, v).Idle?
    ensures WorkersOk(cfg, n)
  {
    forall v | v in n.busy
      ensures CarriesOut(P.At(n.sys, v), n.busy[v].need) && RequestOf(n, n.busy[v].request) == RequestOf(w, n.busy[v].request)
    {
      assert BusyOk(cfg, w, v);
      OperationStays(CacheCfg(cfg), w.sys, step, v, w.busy[v].need);
    }
    WorkersStay(cfg, w, n);
  }

  lemma {:induction false} FreedKeeps(cfg: Settings, w: World, step: P.Step, n: World)
    requires FleetInv(cfg, w) && Moves(step) && n == HostMoves(cfg, w, step).(busy := n.busy)
    requires forall v :: v in n.busy ==> v in w.busy && n.busy[v] == w.busy[v]
    requires forall v :: v in n.busy && (step.Get? || step.Set?) && step.worker == v ==> !P.At(n.sys, v).Idle?
    ensures FleetInv(cfg, n)
  {
    HostMovesKeeps(cfg, w, step);
    RequestsStay(cfg, HostMoves(cfg, w, step), n);
    OperationsStay(cfg, w, step, n);
    AnswersStay(CacheCfg(cfg), w.sys, step);
    assert forall f :: RequestOf(n, f) == RequestOf(w, f);
    SourcesStay(cfg, w, n);
  }

  /** A host step, before the callback whose operation it ended is delivered. */
  lemma {:induction false} MovesKeeps(cfg: Settings, w: World, step: P.Step)
    requires FleetInv(cfg, w) && Moves(step)
    ensures var next := HostMoves(cfg, w, step);
            FleetInv(cfg, if OperationEnds(w, next, step) then next.(busy := w.busy - {step.worker}) else next)
  {
    var next := HostMoves(cfg, w, step);
    FreedKeeps(cfg, w, step, if OperationEnds(w, next, step) then next.(busy := w.busy - {step.worker}) else next);
  }

  lemma {:induction false} HostKeeps(cfg: Settings, w: World, step: P.Step)
    requires FleetInv(cfg, w) && Moves(step)
    ensures FleetInv(cfg, StepFleet(cfg, w, Host(step)))
  {
    var next := HostMoves(cfg, w, step);
    MovesKeeps(cfg, w, step);
    if OperationEnds(w, next, step) {
      var b := w.busy[step.worker];
      DeliverKeeps(cfg, next.(busy := w.busy - {step.worker}), b.request, b.cb, Reading(w.sys, step.worker));
    }
  }

  /** Every schedule of callbacks and host steps keeps the composition together: the cache is in a state
      of its own protocol, every filter in the state its callbacks lead to, and every answer in the
      cache came from a callback of some filter. */
  lemma {:induction false} FleetKeeps(cfg: Settings, events: seq<Event>)
    ensures FleetInv(cfg, RunFleet(cfg, events))
  {
    if events != [] {
      var init := events[..|events| - 1];
      var w := RunFleet(cfg, init);
      FleetKeeps(cfg, init);
      match events[|events| - 1]
      case Arrive(worker, f, cb) => if Free(w, worker, f) { AcceptKeeps(cfg, w, worker, f, cb); }
      case Host(step) => if Moves(step) { HostKeeps(cfg, w, step); }
    }
  }
}
