/** The filter and the shared cache together: nothing is forwarded without a real authorization. */
module EndToEnd {
  import opened Wrappers
  import opened Cache
  import opened CacheKey
  import opened SharedStore
  import opened Decision
  import opened HeaderMap
  import opened Replay
  import Protocol
  import opened Filter
  import opened FilterTheorems

  function CacheCfg(cfg: Settings): Protocol.Cfg {
    Protocol.Cfg(cfg.ttl, cfg.maxEntries)
  }

  /** What a callback finds in the shared data is some reachable state of the concurrent cache. */
  ghost predicate Reads(pcfg: Protocol.Cfg, steps: seq<Protocol.Step>, env: Env) {
    forall id :: env.shards(id) == GetShard(Protocol.Run(pcfg, steps).store, id)
  }

  predicate IsOk(response: CheckResponse) {
    response.httpResponse.Some? && response.httpResponse.value.OkResponse?
  }

  /** The service allowed the request with this key less than the TTL before `now`, and `effect`
      forwards the request as that answer asks. */
  ghost predicate Authorizes(pcfg: Protocol.Cfg, a: Protocol.Answer, key: string, now: u64, h: seq<Header>, effect: Effect) {
    && a.key == key && a.outcome.Decoded? && IsOk(a.outcome.response) && now < a.at + pcfg.ttl
    && effect == LiveEffect(FromCheckResponse(a.outcome.response), h)
  }

  lemma {:induction false} HitHasAnswer(pcfg: Protocol.Cfg, steps: seq<Protocol.Step>, key: string, now: u64, e: CacheEntry)
    requires Lookup(GetShard(Protocol.Run(pcfg, steps).store, ShardId(key)), key, now) == Some(e)
    ensures exists j :: 0 <= j < |Protocol.Run(pcfg, steps).answers|
                        && Protocol.AnsweredBy(pcfg, Protocol.Run(pcfg, steps).answers[j], key, e)
  {
    Protocol.RunKeeps(pcfg, steps);
    Protocol.HitWasAnswered(pcfg, Protocol.Run(pcfg, steps), key, now);
  }

  lemma {:induction false} AllowedEntryIsAuthorized(pcfg: Protocol.Cfg, a: Protocol.Answer, key: string, now: u64, e: CacheEntry, h: seq<Header>)
    requires Protocol.AnsweredBy(pcfg, a, key, e) && e.allowed && e.expiresAtMs > now
    ensures Authorizes(pcfg, a, key, now, h, ReplayEffect(e, h))
  {
    var response := a.outcome.response;
    DecisionShape(response);
    AnswersReplayAsLive(response, SaturatingAdd(a.at, pcfg.ttl), h);
  }

  ghost predicate AuthorizedFromCache(pcfg: Protocol.Cfg, steps: seq<Protocol.Step>, key: string, now: u64, h: seq<Header>, effect: Effect) {
    exists j :: 0 <= j < |Protocol.Run(pcfg, steps).answers|
                && Authorizes(pcfg, Protocol.Run(pcfg, steps).answers[j], key, now, h, effect)
  }

  /** A hit that forwards rests on a fresh OK answer that the service gave for the same key, whatever
      history explains what was read. */
  lemma {:induction false} CacheForwardIsAuthorized(cfg: Settings, steps: seq<Protocol.Step>, st: FilterState, env: Env, effect: Effect)
    requires AllowedByCache(cfg, st, env, effect) && Reads(CacheCfg(cfg), steps, env)
    ensures AuthorizedFromCache(CacheCfg(cfg), steps, CacheKeyOf(cfg, ToHttp(st.parts, st.bodyBuf)), env.now, st.upstream, effect)
  {
    var pcfg := CacheCfg(cfg);
    var key := CacheKeyOf(cfg, ToHttp(st.parts, st.bodyBuf));
    var e := CachedEntry(cfg, key, env).value;
    HitHasAnswer(pcfg, steps, key, env.now, e);
    var j :| 0 <= j < |Protocol.Run(pcfg, steps).answers|
             && Protocol.AnsweredBy(pcfg, Protocol.Run(pcfg, steps).answers[j], key, e);
    AllowedEntryIsAuthorized(pcfg, Protocol.Run(pcfg, steps).answers[j], key, env.now, e, st.upstream);
  }

  /** Callback `i` found the request allowed: by a live OK answer to its own call, or by an OK answer
      for its key that the cache had received, less than the TTL before, when the schedule `steps` had
      run up to `at[i]`. */
  ghost predicate AuthorizedAt(cfg: Settings, steps: seq<Protocol.Step>, at: seq<nat>, cbs: seq<Callback>, i: nat, effect: Effect) {
    && i < |cbs| == |at| && at[i] <= |steps|
    && var st := RunFilter(cfg, cbs[..i]);
       if cbs[i].OnGrpc? then AllowedByAnswer(st, cbs[i].token, cbs[i].status, cbs[i].body, effect)
       else
         var whole := Received(cfg, st, cbs[i]);
         AuthorizedFromCache(CacheCfg(cfg), steps[..at[i]], CacheKeyOf(cfg, ToHttp(whole.parts, whole.bodyBuf)),
                             cbs[i].env.now, whole.upstream, effect)
  }

  /** The callbacks of one request found in the shared data what the schedule had left there at `at`. */
  ghost predicate ReadsAt(cfg: Settings, steps: seq<Protocol.Step>, at: seq<nat>, cbs: seq<Callback>) {
    && |at| == |cbs|
    && forall i :: 0 <= i < |cbs| ==> at[i] <= |steps| && (!cbs[i].OnGrpc? ==> Reads(CacheCfg(cfg), steps[..at[i]], cbs[i].env))
  }

  /** Whatever callbacks a request sees, and whatever all workers do to the shared cache meanwhile, it
      is forwarded only with an authorization: a live OK answer to its own call, or an OK answer that
      the cache had received for the same key, before it was read and less than the TTL ago, and with
      exactly the header changes that answer asks for. */
  lemma {:induction false} ForwardingIsAuthorized(cfg: Settings, steps: seq<Protocol.Step>, at: seq<nat>, cbs: seq<Callback>)
    requires ReadsAt(cfg, steps, at, cbs)
    ensures var st := RunFilter(cfg, cbs);
            OnlyReplies(st) || AuthorizedAt(cfg, steps, at, cbs, st.effects[0].turn, st.effects[0].effect)
  {
    var st := RunFilter(cfg, cbs);
    ForwardedOnlyIfAllowed(cfg, cbs);
    if !OnlyReplies(st) {
      var i := st.effects[0].turn;
      if !cbs[i].OnGrpc? {
        CacheForwardIsAuthorized(cfg, steps[..at[i]], Received(cfg, RunFilter(cfg, cbs[..i]), cbs[i]), cbs[i].env, st.effects[0].effect);
      }
    }
  }
}
