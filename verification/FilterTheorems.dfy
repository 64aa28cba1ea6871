/** What holds of a request's filter after any callbacks in any order. */
module FilterTheorems {
  import opened Wrappers
  import opened CacheKey
  import opened Decision
  import opened HeaderMap
  import opened Replay
  import opened Filter

  // --- one call, one action ------------------------------------------------------------------------

  ghost predicate OneAction(cfg: Settings, st: FilterState) {
    && (!st.dispatched ==>
          st.grpcToken.None? && st.checks == [] && st.calls == [] && st.effects == [] && st.stores == [] && st.purges == [])
    && (st.dispatched && st.grpcToken.Some? ==>
          |st.calls| == 1 && st.calls[0].token == st.grpcToken.value && st.effects == [] && st.stores == [])
    && (st.dispatched && st.grpcToken.None? ==> |st.effects| == 1)
    && |st.checks| <= 1 && |st.calls| <= 1 && |st.stores| <= 1 && |st.purges| <= 1
    && (st.calls != [] ==> st.checks != [] && st.calls[0].request == st.checks[0].request)
    && (st.checks != [] ==> st.checks[0].key == CacheKeyOf(cfg, st.checks[0].request)
                            && (cfg.cacheEnabled ==> st.cacheKey == Some(st.checks[0].key)))
  }

  ghost predicate AllowedByCache(cfg: Settings, st: FilterState, env: Env, effect: Effect) {
    var hit := CachedEntry(cfg, CacheKeyOf(cfg, ToHttp(st.parts, st.bodyBuf)), env);
    hit.Some? && hit.value.allowed && hit.value.expiresAtMs > env.now && effect == ReplayEffect(hit.value, st.upstream)
  }

  ghost predicate AllowedByAnswer(st: FilterState, token: nat, status: nat, body: GrpcBody, effect: Effect) {
    && st.calls != [] && token == st.calls[0].token && status == 0
    && body.Body? && body.response.httpResponse.Some? && body.response.httpResponse.value.OkResponse?
    && effect == Forward(ApplyAll(st.upstream, AllowMutationList(body.response.httpResponse.value.ok)))
  }

  /** In state `st`, callback `cb` brought either an OK answer to the pending call or the end of a
      request for which the shared data held an unexpired allowed entry, and `effect` forwards the
      request with exactly the header changes of that answer or entry. */
  ghost predicate AllowedBy(cfg: Settings, st: FilterState, cb: Callback, effect: Effect) {
    match cb
    case OnGrpc(token, status, body) => AllowedByAnswer(st, token, status, body, effect)
    case OnHeaders(hs, endOfStream, env) => endOfStream && AllowedByCache(cfg, ReceiveHeaders(cfg, st, hs), env, effect)
    case OnBody(size, chunk, endOfStream, env) => endOfStream && AllowedByCache(cfg, ReceiveBody(cfg, st, size, chunk), env, effect)
  }

  /** `s` is the decision of a decoded answer to the one call, under the key of the request it sent. */
  ghost predicate StoredFrom(cfg: Settings, st: FilterState, cb: Callback, s: StoreRequest) {
    && cfg.cacheEnabled && cb.OnGrpc? && st.grpcToken == Some(cb.token) && cb.status == 0 && cb.body.Body?
    && st.calls != [] && s.key == Some(CacheKeyOf(cfg, st.calls[0].request))
    && s.decision == FromCheckResponse(cb.body.response)
  }

  // --- one callback --------------------------------------------------------------------------------

  ghost predicate OnlyReplies(st: FilterState) {
    forall i :: 0 <= i < |st.effects| ==> st.effects[i].effect.Reply?
  }

  /** The request `req` has been taken for checking and nothing has been done about it yet. */
  ghost predicate Taken(cfg: Settings, n: FilterState, req: HttpRequest) {
    && n.dispatched && n.grpcToken.None? && n.calls == [] && n.effects == [] && n.stores == [] && n.purges == []
    && |n.checks| == 1 && n.checks[0].request == req && n.checks[0].key == CacheKeyOf(cfg, req)
    && (cfg.cacheEnabled ==> n.cacheKey == Some(n.checks[0].key))
  }

  lemma TakeDelta(cfg: Settings, st: FilterState)
    requires OneAction(cfg, st) && !st.dispatched
    ensures Taken(cfg, TakeRequest(cfg, st), ToHttp(st.parts, st.bodyBuf)) && TakeRequest(cfg, st).turn == st.turn
  {
  }

  lemma ActDelta(cfg: Settings, n: FilterState, req: HttpRequest, effect: Effect)
    requires Taken(cfg, n, req)
    ensures var m := Act(n, effect);
            OneAction(cfg, m) && m.dispatched && m.stores == [] && m.turn == n.turn && m.effects == [Acted(effect, n.turn)]
  {
  }

  lemma CallDelta(cfg: Settings, n: FilterState, req: HttpRequest, env: Env)
    requires Taken(cfg, n, req)
    ensures var m := CallService(n, req, env);
            OneAction(cfg, m) && m.dispatched && m.stores == [] && m.turn == n.turn && OnlyReplies(m)
  {
  }

  lemma DispatchDelta(cfg: Settings, st: FilterState, env: Env)
    requires OneAction(cfg, st) && !st.dispatched
    ensures var n := Dispatch(cfg, st, env);
            && OneAction(cfg, n) && n.dispatched && n.stores == [] && n.turn == st.turn
            && (OnlyReplies(n) || (n.effects[0].turn == st.turn && AllowedByCache(cfg, st, env, n.effects[0].effect)))
  {
    var req := ToHttp(st.parts, st.bodyBuf);
    TakeDelta(cfg, st);
    var hit := CachedEntry(cfg, CacheKeyOf(cfg, req), env);
    if hit.Some? {
      ActDelta(cfg, TakeRequest(cfg, st), req, ReplayEffect(hit.value, st.upstream));
      assert hit.value.allowed <==> ReplayEffect(hit.value, st.upstream).Forward?;
    } else {
      CallDelta(cfg, TakeRequest(cfg, st), req, env);
    }
  }

  lemma InvalidateDelta(cfg: Settings, st: FilterState)
    requires OneAction(cfg, st) && !st.dispatched
    ensures var n := Invalidate(cfg, st);
            OneAction(cfg, n) && n.dispatched && OnlyReplies(n) && n.stores == [] && n.turn == st.turn
  {
  }

  ghost predicate Finished(cfg: Settings, st: FilterState, endOfStream: bool, env: Env, n: FilterState) {
    && OneAction(cfg, n) && (endOfStream ==> n.dispatched) && n.stores == [] && n.turn == st.turn
    && (OnlyReplies(n)
        || (endOfStream && n.effects[0].turn == st.turn && AllowedByCache(cfg, st, env, n.effects[0].effect)))
  }

  lemma FinishDelta(cfg: Settings, st: FilterState, endOfStream: bool, env: Env)
    requires OneAction(cfg, st) && OnlyReplies(st) && st.stores == []
    ensures Finished(cfg, st, endOfStream, env, Finish(cfg, st, endOfStream, env))
  {
    if endOfStream && !st.dispatched {
      if st.isInvalidation { InvalidateDelta(cfg, st); } else { DispatchDelta(cfg, st, env); }
    }
  }

  lemma ReceiveHeadersDelta(cfg: Settings, st: FilterState, hs: seq<Header>)
    requires OneAction(cfg, st) && !st.dispatched
    ensures var n := ReceiveHeaders(cfg, st, hs);
            OneAction(cfg, n) && OnlyReplies(n) && n.stores == [] && n.turn == st.turn
  {
  }

  lemma ReceiveBodyDelta(cfg: Settings, st: FilterState, bodySize: nat, chunk: Option<seq<byte>>)
    requires OneAction(cfg, st) && !st.dispatched
    ensures var n := ReceiveBody(cfg, st, bodySize, chunk);
            OneAction(cfg, n) && OnlyReplies(n) && n.stores == [] && n.turn == st.turn
  {
  }

  lemma GrpcDelta(cfg: Settings, st: FilterState, token: nat, status: nat, body: GrpcBody)
    requires OneAction(cfg, st) && st.grpcToken == Some(token)
    ensures Delta(cfg, st, OnGrpc(token, status, body), NextTurn(GrpcStep(cfg, st, token, status, body)))
  {
    AnsweredDelta(cfg, st, token, status, body);
  }

  lemma AnsweredDelta(cfg: Settings, st: FilterState, token: nat, status: nat, body: GrpcBody)
    requires OneAction(cfg, st) && st.grpcToken == Some(token)
    ensures var n := GrpcStep(cfg, st, token, status, body);
            && OneAction(cfg, n) && n.dispatched && n.turn == st.turn
            && (OnlyReplies(n) || (n.effects[0].turn == st.turn && AllowedByAnswer(st, token, status, body, n.effects[0].effect)))
            && (n.stores != [] ==>
                  n.stores[0].turn == st.turn && StoredFrom(cfg, st, OnGrpc(token, status, body), n.stores[0]))
  {
    if status == 0 && body.Body? {
      var decision := FromCheckResponse(body.response);
      assert GrpcStep(cfg, st, token, status, body).effects == [Acted(LiveEffect(decision, st.upstream), st.turn)];
    }
  }

  /** Everything the theorems need to know about one callback. */
  ghost predicate Delta(cfg: Settings, st: FilterState, cb: Callback, next: FilterState) {
    && OneAction(cfg, next) && next.turn == st.turn + 1
    && (st.dispatched || EndsStream(cb) ==> next.dispatched)
    && (st.effects != [] ==> next.effects == st.effects)
    && (st.effects == [] ==>
          OnlyReplies(next) || (next.effects[0].turn == st.turn && AllowedBy(cfg, st, cb, next.effects[0].effect)))
    && (next.stores == st.stores
        || (next.stores != [] && next.stores[0].turn == st.turn && StoredFrom(cfg, st, cb, next.stores[0])))
  }

  /** A callback that received something, leaving `mid`, and then finished, leaving `n`. */
  lemma ReceivedDelta(cfg: Settings, st: FilterState, cb: Callback, mid: FilterState, n: FilterState)
    requires OneAction(cfg, st) && !st.dispatched && !cb.OnGrpc?
    requires mid.turn == st.turn && Finished(cfg, mid, cb.endOfStream, cb.env, n)
    requires mid == if cb.OnHeaders? then ReceiveHeaders(cfg, st, cb.headers) else ReceiveBody(cfg, st, cb.bodySize, cb.chunk)
    ensures Delta(cfg, st, cb, NextTurn(n))
  {
  }

  lemma {:induction false} HeadersDelta(cfg: Settings, st: FilterState, hs: seq<Header>, endOfStream: bool, env: Env)
    requires OneAction(cfg, st) && !st.dispatched
    ensures Delta(cfg, st, OnHeaders(hs, endOfStream, env), NextTurn(HeadersStep(cfg, st, hs, endOfStream, env)))
  {
    var mid := ReceiveHeaders(cfg, st, hs);
    ReceiveHeadersDelta(cfg, st, hs);
    FinishDelta(cfg, mid, endOfStream, env);
    ReceivedDelta(cfg, st, OnHeaders(hs, endOfStream, env), mid, Finish(cfg, mid, endOfStream, env));
  }

  lemma {:induction false} BodyDelta(cfg: Settings, st: FilterState, bodySize: nat, chunk: Option<seq<byte>>, endOfStream: bool, env: Env)
    requires OneAction(cfg, st) && !st.dispatched
    ensures Delta(cfg, st, OnBody(bodySize, chunk, endOfStream, env),
                  NextTurn(BodyStep(cfg, st, bodySize, chunk, endOfStream, env)))
  {
    var mid := ReceiveBody(cfg, st, bodySize, chunk);
    ReceiveBodyDelta(cfg, st, bodySize, chunk);
    FinishDelta(cfg, mid, endOfStream, env);
    ReceivedDelta(cfg, st, OnBody(bodySize, chunk, endOfStream, env), mid, Finish(cfg, mid, endOfStream, env));
  }

  lemma {:induction false} StepDelta(cfg: Settings, st: FilterState, cb: Callback)
    requires OneAction(cfg, st)
    ensures Delta(cfg, st, cb, StepFilter(cfg, st, cb))
  {
    match cb
    case OnHeaders(hs, endOfStream, env) => if !st.dispatched { HeadersDelta(cfg, st, hs, endOfStream, env); }
    case OnBody(size, chunk, endOfStream, env) => if !st.dispatched { BodyDelta(cfg, st, size, chunk, endOfStream, env); }
    case OnGrpc(token, status, body) =>
      if st.grpcToken == Some(token) { GrpcDelta(cfg, st, token, status, body); }
  }

  // --- all callback sequences -------------------------------------------------------------------------

  predicate EndsStream(cb: Callback) {
    !cb.OnGrpc? && cb.endOfStream
  }

  lemma {:induction false} RunDelta(cfg: Settings, cbs: seq<Callback>)
    ensures OneAction(cfg, RunFilter(cfg, cbs)) && RunFilter(cfg, cbs).turn == |cbs|
    ensures cbs != [] ==>
              Delta(cfg, RunFilter(cfg, cbs[..|cbs| - 1]), cbs[|cbs| - 1], RunFilter(cfg, cbs))
  {
    if cbs != [] {
      RunDelta(cfg, cbs[..|cbs| - 1]);
      StepDelta(cfg, RunFilter(cfg, cbs[..|cbs| - 1]), cbs[|cbs| - 1]);
    }
  }

  /** Never more than one gRPC call, and never more than one of forwarding and local reply.  Once the
      stream has ended, in the headers or in the body, exactly one of these is true: the one call is
      still unanswered, or the one action has been taken. */
  lemma {:induction false} ExactlyOneAction(cfg: Settings, cbs: seq<Callback>)
    ensures var st := RunFilter(cfg, cbs);
            && |st.calls| <= 1 && |st.effects| <= 1
            && ((exists i :: 0 <= i < |cbs| && EndsStream(cbs[i])) ==>
                  st.dispatched && (st.grpcToken.Some? <==> |st.effects| == 0))
  {
    RunDelta(cfg, cbs);
    if i :| 0 <= i < |cbs| && EndsStream(cbs[i]) {
      EndedIsDispatched(cfg, cbs, i);
    }
  }

  lemma {:induction false} EndedIsDispatched(cfg: Settings, cbs: seq<Callback>, i: nat)
    requires i < |cbs| && EndsStream(cbs[i])
    ensures RunFilter(cfg, cbs).dispatched
  {
    RunDelta(cfg, cbs);
    if i < |cbs| - 1 { EndedIsDispatched(cfg, cbs[..|cbs| - 1], i); }
  }

  /** Callback `turn` is why the request is forwarded with `effect`. */
  ghost predicate AllowedAt(cfg: Settings, cbs: seq<Callback>, turn: nat, effect: Effect) {
    turn < |cbs| && AllowedBy(cfg, RunFilter(cfg, cbs[..turn]), cbs[turn], effect)
  }

  /** A request is forwarded only because of a live OK answer to its own call or an unexpired allowed
      cache entry for its own key, which the forwarding callback brought; everything else fails
      closed. */
  lemma {:induction false} ForwardedOnlyIfAllowed(cfg: Settings, cbs: seq<Callback>)
    ensures var st := RunFilter(cfg, cbs);
            OnlyReplies(st) || AllowedAt(cfg, cbs, st.effects[0].turn, st.effects[0].effect)
  {
    RunDelta(cfg, cbs);
    if cbs != [] {
      var init := cbs[..|cbs| - 1];
      RunDelta(cfg, init);
      ForwardedOnlyIfAllowed(cfg, init);
      if RunFilter(cfg, init).effects != [] && !OnlyReplies(RunFilter(cfg, init)) {
        var turn := RunFilter(cfg, init).effects[0].turn;
        assert init[..turn] == cbs[..turn];
      }
    }
  }

  ghost predicate StoredAt(cfg: Settings, cbs: seq<Callback>, s: StoreRequest) {
    s.turn < |cbs| && StoredFrom(cfg, RunFilter(cfg, cbs[..s.turn]), cbs[s.turn], s)
  }

  /** A store is requested only for the decision of a decoded answer to the request's own call, under
      that request's key: failed calls, empty bodies and undecodable answers store nothing. */
  lemma {:induction false} OnlyAnswersAreStored(cfg: Settings, cbs: seq<Callback>)
    ensures var st := RunFilter(cfg, cbs);
            |st.stores| <= 1 && (st.stores != [] ==> StoredAt(cfg, cbs, st.stores[0]))
  {
    RunDelta(cfg, cbs);
    if cbs != [] {
      var init := cbs[..|cbs| - 1];
      var stores := RunFilter(cfg, cbs).stores;
      RunDelta(cfg, init);
      OnlyAnswersAreStored(cfg, init);
      if stores != [] && stores == RunFilter(cfg, init).stores {
        assert init[..stores[0].turn] == cbs[..stores[0].turn];
      }
    }
  }
}
