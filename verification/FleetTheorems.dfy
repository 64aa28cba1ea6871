/** What holds of every schedule of many requests on many workers over one shared cache. */
module FleetTheorems {
  import opened Cache
  import opened CacheKey
  import opened SharedStore
  import opened LogTheory
  import opened Decision
  import opened HeaderMap
  import opened Replay
  import P = Protocol
  import PT = ProtocolTheorems
  import opened Filter
  import opened FilterTheorems
  import opened Requests
  import opened Outcomes
  import opened EndToEnd
  import opened Fleet

  // --- what is asked of the cache ---------------------------------------------------------------------

  lemma {:induction false} LateNeed(cfg: Settings, cbs: seq<Callback>)
    requires cbs != [] && Over(cfg, cbs[..|cbs| - 1])
    ensures var st, last := RunFilter(cfg, cbs[..|cbs| - 1]), cbs[|cbs| - 1];
            var need := NeedOf(cfg, st, last);
            && !need.Look? && !need.Purge?
            && forall key, response :: need == Save(key, response) <==>
                 cfg.cacheEnabled && Brings(cfg, cbs, response) && key == CacheKeyOf(cfg, st.calls[0].request)
  {
    var init := cbs[..|cbs| - 1];
    RunStands(cfg, init);
    RunDelta(cfg, init);
    LateStep(cfg, RunFilter(cfg, init), cbs[|cbs| - 1], Own(cfg, init));
    if Answers(cfg, cbs) {
      var st := AnswerStep(cfg, cbs);
      if cbs[|cbs| - 1].status == 0 && cbs[|cbs| - 1].body.Body? {
        AnswerIsStored(cfg, cbs, cbs[|cbs| - 1].body.response);
      }
    } else {
      NothingElse(cfg, cbs);
    }
  }

  lemma {:induction false} EarlyNeed(cfg: Settings, cbs: seq<Callback>)
    requires cbs != [] && !Over(cfg, cbs[..|cbs| - 1])
    ensures var need := NeedOf(cfg, RunFilter(cfg, cbs[..|cbs| - 1]), cbs[|cbs| - 1]);
            && !need.Save?
            && (forall key :: need == Look(key) <==>
                  cfg.cacheEnabled && Ends(cfg, cbs) && !IsInvalidation(cbs) && RunFilter(cfg, cbs).checks != []
                  && RunFilter(cfg, cbs).checks[0].key == key)
            && (forall request :: need == Purge(request) <==> MayPurge(cfg, cbs, request))
  {
    NothingYet(cfg, cbs[..|cbs| - 1]);
    OverSnoc(cfg, cbs);
    if TooLarge(cfg, cbs[|cbs| - 1]) {
      TooLargeIsRejected(cfg, cbs);
    } else if !EndsStream(cbs[|cbs| - 1]) {
      NothingYet(cfg, cbs);
    } else if IsInvalidation(cbs) {
      InvalidationAnswered(cfg, cbs);
      InvalidationPurges(cfg, cbs);
      RunDelta(cfg, cbs);
    } else {
      RequestIsChecked(cfg, cbs);
    }
  }

  /** A callback starts a lookup exactly when it completes a request to be checked and the cache is on, a
      store exactly when it brings a decoded answer to the pending call and the cache is on, and a
      purge exactly when it completes a request that may ask for it. */
  lemma {:induction false} NeedIff(cfg: Settings, cbs: seq<Callback>)
    requires cbs != []
    ensures var st, need := RunFilter(cfg, cbs[..|cbs| - 1]), NeedOf(cfg, RunFilter(cfg, cbs[..|cbs| - 1]), cbs[|cbs| - 1]);
            && (forall key :: need == Look(key) <==>
                  cfg.cacheEnabled && Ends(cfg, cbs) && !IsInvalidation(cbs) && RunFilter(cfg, cbs).checks != []
                  && RunFilter(cfg, cbs).checks[0].key == key)
            && (forall key, response :: need == Save(key, response) <==>
                  cfg.cacheEnabled && Brings(cfg, cbs, response) && key == CacheKeyOf(cfg, st.calls[0].request))
            && (forall request :: need == Purge(request) <==> MayPurge(cfg, cbs, request))
  {
    if Over(cfg, cbs[..|cbs| - 1]) {
      LateNeed(cfg, cbs);
    } else {
      EarlyNeed(cfg, cbs);
      NothingYet(cfg, cbs[..|cbs| - 1]);
      if Ends(cfg, cbs) && !IsInvalidation(cbs) { RequestIsChecked(cfg, cbs); }
    }
  }

  // --- every forward is authorized --------------------------------------------------------------------

  /** Answer number `j` of the cache allows what is done to a request with this key: it is an OK answer
      to the gRPC call of some request, whose check request as sent has the same key, it was received
      less than the TTL before `now`, and `effect` forwards the request as it asks. */
  ghost predicate AllowsAll(cfg: Settings, w: World, j: int, key: string, now: u64, h: seq<Header>, effect: Effect) {
    && 0 <= j < |w.sources| == |w.sys.answers|
    && var src := w.sources[j];
       var asker := RequestOf(w, src.request);
       && src.turn <= |asker.callbacks|
       && AnswersCall(cfg, RunFilter(cfg, asker.callbacks[..src.turn]), src.cb, key)
       && IsOk(src.cb.body.response)
       && now < w.sys.answers[j].at + cfg.ttl
       && effect == LiveEffect(FromCheckResponse(src.cb.body.response), h)
  }

  /** Callback `i` of request `r` brought the OK answer to its own call, or read a cache that had
      received such an answer before. */
  ghost predicate Justified(cfg: Settings, w: World, r: Request, i: nat, effect: Effect) {
    && i < |r.callbacks| == |r.readAt| && r.readAt[i] <= |w.schedule|
    && var cb := r.callbacks[i];
       var st := RunFilter(cfg, r.callbacks[..i]);
       if cb.OnGrpc? then AllowedByAnswer(st, cb.token, cb.status, cb.body, effect)
       else
         var whole := Received(cfg, st, cb);
         exists j :: && j < |P.Run(CacheCfg(cfg), w.schedule[..r.readAt[i]]).answers|
                     && AllowsAll(cfg, w, j, CacheKeyOf(cfg, ToHttp(whole.parts, whole.bodyBuf)), cb.env.now, whole.upstream, effect)
  }

  lemma {:induction false} AnswersGrow(pcfg: P.Cfg, steps: seq<P.Step>, n: nat)
    requires n <= |steps|
    ensures P.Run(pcfg, steps[..n]).answers <= P.Run(pcfg, steps).answers
  {
    if n < |steps| {
      var init := steps[..|steps| - 1];
      AnswersGrow(pcfg, init, n);
      assert init[..n] == steps[..n];
      OneStepAnswers(pcfg, P.Run(pcfg, init), steps[|steps| - 1]);
    } else {
      assert steps[..n] == steps;
    }
  }

  lemma OneStepAnswers(pcfg: P.Cfg, s: P.System, step: P.Step)
    ensures s.answers <= P.Next(pcfg, s, step).answers
  {
  }

  lemma {:induction false} CacheAnswerAllows(cfg: Settings, w: World, n: nat, key: string, now: u64, h: seq<Header>, effect: Effect)
    requires FleetInv(cfg, w) && n <= |w.schedule|
    requires AuthorizedFromCache(CacheCfg(cfg), w.schedule[..n], key, now, h, effect)
    ensures exists j :: j < |P.Run(CacheCfg(cfg), w.schedule[..n]).answers| && AllowsAll(cfg, w, j, key, now, h, effect)
  {
    var earlier := P.Run(CacheCfg(cfg), w.schedule[..n]).answers;
    var j :| 0 <= j < |earlier| && Authorizes(CacheCfg(cfg), earlier[j], key, now, h, effect);
    AnswersGrow(CacheCfg(cfg), w.schedule, n);
    assert SourceOk(cfg, w, w.sources[j], w.sys.answers[j]);
    assert AllowsAll(cfg, w, j, key, now, h, effect);
  }

  /** In every run of any number of requests and workers, a request is forwarded only on an OK answer:
      one to its own call, or one to the call of a request with the same key, received before the
      cache was read and less than the TTL ago; and with exactly the header changes of that answer. */
  lemma {:induction false} EveryForwardIsAuthorized(cfg: Settings, events: seq<Event>, f: nat)
    ensures var w := RunFleet(cfg, events);
            var r := RequestOf(w, f);
            OnlyReplies(r.state) || Justified(cfg, w, r, r.state.effects[0].turn, r.state.effects[0].effect)
  {
    var w := RunFleet(cfg, events);
    var r := RequestOf(w, f);
    FleetKeeps(cfg, events);
    assert RequestOk(cfg, w, r);
    ForwardingIsAuthorized(cfg, w.schedule, r.readAt, r.callbacks);
    if !OnlyReplies(r.state) {
      var i, effect := r.state.effects[0].turn, r.state.effects[0].effect;
      var cb := r.callbacks[i];
      if !cb.OnGrpc? {
        var whole := Received(cfg, RunFilter(cfg, r.callbacks[..i]), cb);
        CacheAnswerAllows(cfg, w, r.readAt[i], CacheKeyOf(cfg, ToHttp(whole.parts, whole.bodyBuf)), cb.env.now, whole.upstream, effect);
      }
    }
  }

  // --- the filter and the cache do the same ---------------------------------------------------------

  ghost predicate SameRecords(a: FilterState, b: FilterState) {
    a.checks == b.checks && a.stores == b.stores && a.purges == b.purges
  }

  lemma DispatchRecords(cfg: Settings, st: FilterState, env: Env)
    ensures SameRecords(Dispatch(cfg, st, env), TakeRequest(cfg, st))
  {
  }

  lemma FinishRecords(cfg: Settings, st: FilterState, endOfStream: bool, a: Env, b: Env)
    ensures SameRecords(Finish(cfg, st, endOfStream, a), Finish(cfg, st, endOfStream, b))
  {
    DispatchRecords(cfg, st, a);
    DispatchRecords(cfg, st, b);
  }

  /** What a callback needs does not depend on what it will find in the shared data. */
  lemma {:induction false} NeedIsStable(cfg: Settings, st: FilterState, cb: Callback, now: u64, store: Store)
    ensures SameRecords(StepFilter(cfg, st, Observed(cb, now, store)), StepFilter(cfg, st, cb))
    ensures NeedOf(cfg, st, Observed(cb, now, store)) == NeedOf(cfg, st, cb)
  {
    match cb
    case OnHeaders(hs, endOfStream, env) =>
      if !st.dispatched { FinishRecords(cfg, ReceiveHeaders(cfg, st, hs), endOfStream, env, Observed(cb, now, store).env); }
    case OnBody(size, chunk, endOfStream, env) =>
      if !st.dispatched { FinishRecords(cfg, ReceiveBody(cfg, st, size, chunk), endOfStream, env, Observed(cb, now, store).env); }
    case OnGrpc(_, _, _) =>
  }

  lemma {:induction false} LookupEnds(cfg: Settings, w: World, v: nat)
    requires v in w.busy && P.At(w.sys, v).Looking?
    ensures var n := StepFleet(cfg, w, Host(P.Get(v)));
            var p, b := P.At(w.sys, v), w.busy[v];
            var before, cb := RequestOf(w, b.request), Observed(b.cb, p.now, w.sys.store);
            && RequestOf(n, b.request) == Request(StepFilter(cfg, before.state, cb), before.callbacks + [cb], before.readAt + [|w.schedule| + 1])
            && n.sys.lookups == w.sys.lookups + [P.LookupRecord(v, p.key, p.now, |w.sys.log|, w.sys.clock, |w.sys.answers|,
                                                   Lookup(GetShard(w.sys.store, ShardId(p.key)), p.key, p.now))]
  {
    var p := P.At(w.sys, v);
    var next := HostMoves(cfg, w, P.Get(v));
    assert P.At(next.sys, v) == P.Idle && next.sys.store == w.sys.store;
    assert Reading(w.sys, v) == p.now && OperationEnds(w, next, P.Get(v));
  }

  /** When a worker's lookup reads its shard, the waiting request acts on exactly what the lookup found:
      the same key, clock reading and result. */
  lemma {:induction false} FilterActsOnItsLookup(cfg: Settings, events: seq<Event>, v: nat)
    requires v in RunFleet(cfg, events).busy && P.At(RunFleet(cfg, events).sys, v).Looking?
    ensures var w := RunFleet(cfg, events);
            var n := StepFleet(cfg, w, Host(P.Get(v)));
            var before, after := RequestOf(w, w.busy[v].request), RequestOf(n, w.busy[v].request);
            && |n.sys.lookups| == |w.sys.lookups| + 1 && |after.callbacks| == |before.callbacks| + 1
            && |after.state.checks| == |before.state.checks| + 1
            && var found, cb := n.sys.lookups[|w.sys.lookups|], after.callbacks[|before.callbacks|];
            && !cb.OnGrpc? && found.now == cb.env.now
            && found.key == after.state.checks[|before.state.checks|].key
            && found.result == CachedEntry(cfg, found.key, cb.env)
  {
    var w := RunFleet(cfg, events);
    var b := w.busy[v];
    var before := RequestOf(w, b.request);
    FleetKeeps(cfg, events);
    assert BusyOk(cfg, w, v) && RequestOk(cfg, w, before);
    LookupEnds(cfg, w, v);
    NeedIsStable(cfg, before.state, b.cb, P.At(w.sys, v).now, w.sys.store);
    LookNeeds(cfg, before.callbacks, b.cb);
  }

  lemma {:induction false} LookNeeds(cfg: Settings, cbs: seq<Callback>, cb: Callback)
    requires NeedOf(cfg, RunFilter(cfg, cbs), cb).Look?
    ensures cfg.cacheEnabled && !cb.OnGrpc?
    ensures |StepFilter(cfg, RunFilter(cfg, cbs), cb).checks| == |RunFilter(cfg, cbs).checks| + 1
  {
    RunDelta(cfg, cbs);
    StepDelta(cfg, RunFilter(cfg, cbs), cb);
  }

  // --- purges --------------------------------------------------------------------------------------

  /** The request was forwarded because of what it found in the cache. */
  ghost predicate ForwardedFromCache(w: World, r: Request) {
    && !OnlyReplies(r.state)
    && var turn := r.state.effects[0].turn;
       turn < |r.callbacks| == |r.readAt| && !r.callbacks[turn].OnGrpc? && r.readAt[turn] <= |w.schedule|
  }

  /** The request as it was complete, and its key. */
  ghost function Whole(cfg: Settings, w: World, r: Request): FilterState
    requires ForwardedFromCache(w, r)
  {
    var turn := r.state.effects[0].turn;
    Received(cfg, RunFilter(cfg, r.callbacks[..turn]), r.callbacks[turn])
  }

  ghost function KeyOf(cfg: Settings, w: World, r: Request): string
    requires ForwardedFromCache(w, r)
  {
    CacheKeyOf(cfg, ToHttp(Whole(cfg, w, r).parts, Whole(cfg, w, r).bodyBuf))
  }

  /** The writes committed when the request read the cache. */
  ghost function LogAtRead(cfg: Settings, w: World, r: Request): seq<Commit>
    requires ForwardedFromCache(w, r)
  {
    P.Run(CacheCfg(cfg), w.schedule[..r.readAt[r.state.effects[0].turn]]).log
  }

  /** Of a purge that was committed before a request read the cache, nothing is ever forwarded: the entry
      replayed was committed by a store after the purge. */
  lemma {:induction false} ForwardAfterPurgeIsNewer(cfg: Settings, events: seq<Event>, f: nat, p: nat)
    requires ForwardedFromCache(RunFleet(cfg, events), RequestOf(RunFleet(cfg, events), f))
    requires var w := RunFleet(cfg, events);
             var log := LogAtRead(cfg, w, RequestOf(w, f));
             p < |log| && Purges(log[p], KeyOf(cfg, w, RequestOf(w, f)))
    ensures var w := RunFleet(cfg, events);
            var r := RequestOf(w, f);
            var log := LogAtRead(cfg, w, r);
            exists i :: p < i < |log| && Stores(log[i], KeyOf(cfg, w, r))
                        && r.state.effects[0].effect == ReplayEffect(log[i].op.entry, Whole(cfg, w, r).upstream)
  {
    var w := RunFleet(cfg, events);
    var r := RequestOf(w, f);
    var turn := r.state.effects[0].turn;
    var steps := w.schedule[..r.readAt[turn]];
    FleetKeeps(cfg, events);
    assert RequestOk(cfg, w, r);
    ForwardedOnlyIfAllowed(cfg, r.callbacks);
    assert Reads(CacheCfg(cfg), steps, r.callbacks[turn].env);
    PT.NoResurrection(CacheCfg(cfg), steps, p, KeyOf(cfg, w, r));
  }
}
