/** The filter object that the host calls, one per request. */
module AuthzHttp {
  import opened Wrappers
  import opened Ascii
  import opened Cache
  import opened CacheKey
  import opened Decision
  import opened HeaderMap
  import opened Replay
  import opened SharedStore
  import opened CacheClient
  import opened Filter

  /** What happens around the host calls of one callback: the clock readings, and what other instances
      write to the shared data in between. */
  datatype Meanwhile = Meanwhile(clock: nat -> u64, others: nat -> seq<Commit>)

  /** A callback put an effect that forwards the request after the effects `before`. */
  ghost predicate ForwardAdded(before: seq<Acted>, after: seq<Acted>) {
    |after| == |before| + 1 && after[|before|].effect.Forward?
  }

  /** What reading the shared data yields at the start of the callback. */
  ghost predicate Sees(env: Env, st: Store) {
    forall id :: env.shards(id) == GetShard(st, id)
  }

  /** One update of one shard, in at most three attempts: it commits once, unless all three are beaten. */
  ghost predicate UpdateDone(st: Store, log: seq<Commit>, log': seq<Commit>, me: nat, others: nat -> seq<Commit>,
                             op: Op, id: nat, quota: nat) {
    if Beaten(st, others, 0, id) then GaveUp(log, log', me, id) else GrewByOne(log, log', me, op, id, quota)
  }

  ghost predicate StoreDone(cfg: Settings, s: StoreRequest, st: Store, log: seq<Commit>, log': seq<Commit>, me: nat, during: Meanwhile) {
    if s.key.None? then log' == log
    else UpdateDone(st, log, log', me, during.others,
                    StoreOp(s.key.value, EntryFor(s.decision, SaturatingAdd(during.clock(0), cfg.ttl))),
                    ShardId(s.key.value), ShardQuota(cfg.maxEntries))
  }

  ghost predicate PurgeDone(request: InvalidationRequest, st: Store, log: seq<Commit>, log': seq<Commit>, me: nat, during: Meanwhile) {
    if request.op.PurgeKey? then
      request.key.Some? && UpdateDone(st, log, log', me, during.others, PurgeKeyOp(request.key.value), ShardId(request.key.value), 0)
    else
      exists purged :: |purged| == NUM_SHARDS && OwnPurges(log', |log|, me, purged)
        && forall id :: 0 <= id < NUM_SHARDS ==>
             (!purged[id] ==> Outrun(during.others, 6 * id, id, 3)) && (Beaten(st, during.others, 6 * id, id) ==> !purged[id])
  }

  /** What a callback asked to be stored or purged has been done to the shared data, and nothing else. */
  ghost predicate CarriedOut(cfg: Settings, before: FilterState, after: FilterState, st: Store, log: seq<Commit>,
                             log': seq<Commit>, me: nat, during: Meanwhile) {
    && log <= log'
    && if |after.stores| > |before.stores| then StoreDone(cfg, after.stores[|before.stores|], st, log, log', me, during)
       else if |after.purges| > |before.purges| then PurgeDone(after.purges[|before.purges|], st, log, log', me, during)
       else log' == log
  }

  /** The callback when the shared data is `st`. */
  function Observing(cb: Callback, st: Store): Callback {
    if cb.OnGrpc? then cb else cb.(env := cb.env.(shards := (id: nat) => GetShard(st, id)))
  }

  /** `cb` is the callback `raw` with what the writes in `log` have left in the shared data. */
  ghost predicate Observes(cb: Callback, raw: Callback, log: seq<Commit>) {
    exists st :: cb == Observing(raw, st) && StoreMatchesLog(st, log)
  }

  class Instance {
    const cfg: Settings
    const me: nat
    const shared: SharedData
    const request: RequestHeaders
    var grpcToken: Option<nat>
    var cacheKey: Option<string>
    var isInvalidation: bool
    var dispatched: bool
    var verb: string
    var path: string
    var query: string
    var host: string
    var scheme: string
    var requestId: string
    var headers: map<string, string>
    var bodyBuf: seq<byte>
    var bodySeen: nat

    ghost var checks: seq<Check>
    ghost var calls: seq<Call>
    ghost var effects: seq<Acted>
    ghost var stores: seq<StoreRequest>
    ghost var purges: seq<InvalidationRequest>
    ghost var turn: nat

    ghost function View(): FilterState
      reads this, request
    {
      FilterState(grpcToken, cacheKey, isInvalidation, dispatched,
                  Parts(verb, path, query, host, scheme, requestId, headers),
                  bodyBuf, bodySeen, request.headers, checks, calls, effects, stores, purges, turn)
    }

    ghost predicate Ready(during: Meanwhile)
      reads shared
    {
      shared.Valid() && forall i :: Foreign(during.others(i), me)
    }

    constructor (cfg: Settings, me: nat, shared: SharedData)
      ensures this.cfg == cfg && this.me == me && this.shared == shared && fresh(request) && View() == FRESH
    {
      this.cfg, this.me, this.shared := cfg, me, shared;
      request := new RequestHeaders([]);
      grpcToken, cacheKey, isInvalidation, dispatched := None, None, false, false;
      verb, path, query, host, scheme, requestId := "", "", "", "", "", "";
      headers := map[];
      bodyBuf, bodySeen := [], 0;
      checks, calls, effects, stores, purges, turn := [], [], [], [], [], 0;
    }

    /** The host's local reply; the request is not forwarded. */
    method SendHttpResponse(status: nat, replyHeaders: seq<(string, string)>, body: Option<string>)
      modifies `effects
      ensures effects == old(effects) + [Acted(Reply(status, replyHeaders, body), turn)]
    {
      effects := effects + [Acted(Reply(status, replyHeaders, body), turn)];
    }

    /** Applies the mutations and lets the request go upstream. */
    method ForwardWith(mutations: seq<Mutation>)
      modifies `effects, request
      ensures request.headers == ApplyAll(old(request.headers), mutations)
      ensures effects == old(effects) + [Acted(Forward(request.headers), turn)]
    {
      request.ApplyMutations(mutations);
      effects := effects + [Acted(Forward(request.headers), turn)];
    }

    /** The cache key, computed by iterating the header map in whatever order it yields. */
    method KeyFor(req: HttpRequest) returns (key: string)
      ensures key == CacheKeyOf(cfg, req)
    {
      key := ComputeCacheKey(CheckRequest(Some(req)), cfg.policy, cfg.bodyHash, cfg.keyHash);
      ghost var order := OrderExists(req.headers);
      KeyIsWellDefined(cfg, req, order);
    }

    method RejectPayloadTooLarge() returns (action: Action)
      modifies this
      ensures View() == Reject(old(View())) && action == Pause
    {
      dispatched := true;
      SendHttpResponse(413, PLAIN, Some("Payload Too Large"));
      return Pause;
    }

    ghost function PartsView(): Parts
      reads this
    {
      Parts(verb, path, query, host, scheme, requestId, headers)
    }

    /** Sorts the request headers into the fields; later headers of a name replace earlier ones. */
    method ReadHeaders(hs: seq<Header>) returns (contentLength: Option<nat>)
      modifies `verb, `path, `query, `host, `scheme, `requestId, `headers
      ensures PartsView() == ParseHeaders(old(PartsView()).(headers := map[]), hs)
      ensures contentLength == ContentLength(hs)
    {
      headers := map[];
      contentLength := None;
      for i := 0 to |hs|
        invariant PartsView() == ParseHeaders(old(PartsView()).(headers := map[]), hs[..i])
        invariant contentLength == ContentLength(hs[..i])
      {
        assert hs[..i + 1][..i] == hs[..i];
        var name, value := hs[i].name, hs[i].value;
        if name == ":method" {
          NotContentLength(name);
          verb := value;
        } else if name == ":path" {
          NotContentLength(name);
          var pos := QueryMark(value);
          if pos < |value| {
            path := value[..pos];
            query := value[pos + 1..];
          } else {
            path := value;
          }
        } else if name == ":authority" {
          NotContentLength(name);
          host := value;
        } else if name == ":scheme" {
          NotContentLength(name);
          scheme := value;
        } else if EqIgnoreCase(name, "x-request-id") {
          NotContentLength(name);
          requestId := value;
        } else if StartsWith(name, ':') {
          NotContentLength(name);
        } else {
          if EqIgnoreCase(name, "content-length") {
            var length := ParseUint(value, 10, WORD32 - 1);
            if length.Some? { contentLength := length; }
          }
          headers := headers[Lower(name) := value];
        }
      }
      assert hs[..|hs|] == hs;
    }

    method FetchHeaders(hs: seq<Header>) returns (contentLength: Option<nat>)
      modifies this, request
      ensures View() == ReadParts(old(View()), hs)
      ensures contentLength == ContentLength(hs)
    {
      request.headers := hs;
      contentLength := ReadHeaders(hs);
    }

    /** Reads the headers; a declared length over the limit is rejected at once. */
    method ReceiveRequestHeaders(hs: seq<Header>)
      modifies this, request
      ensures View() == ReceiveHeaders(cfg, old(View()), hs)
    {
      var contentLength := FetchHeaders(hs);
      if contentLength.Some? && contentLength.value > cfg.maxBody {
        var _ := RejectPayloadTooLarge();
      } else {
        MarkInvalidation();
      }
    }

    method MarkInvalidation()
      modifies `isInvalidation
      ensures View() == Classify(old(View()))
    {
      isInvalidation := verb == "POST" && path == INVALIDATION_PATH;
    }

    /** Appends the bytes not yet seen; a body over the limit is rejected. */
    method ReceiveRequestBody(bodySize: nat, chunk: Option<seq<byte>>)
      modifies this
      ensures View() == ReceiveBody(cfg, old(View()), bodySize, chunk)
    {
      if bodySize > cfg.maxBody {
        var _ := RejectPayloadTooLarge();
      } else if bodySize > bodySeen {
        if chunk.Some? {
          bodyBuf := bodyBuf + chunk.value;
        }
        bodySeen := bodySize;
      }
    }

    method OnHttpRequestHeaders(hs: seq<Header>, endOfStream: bool, env: Env, during: Meanwhile) returns (action: Action)
      requires Ready(during) && Sees(env, shared.store)
      modifies this, request, shared
      ensures shared.Valid() && View() == HeadersStep(cfg, old(View()), hs, endOfStream, env)
      ensures CarriedOut(cfg, old(View()), View(), old(shared.store), old(shared.log), shared.log, me, during)
      ensures action == Continue <==>
                ForwardAdded(old(effects), effects) || (isInvalidation && !endOfStream && !dispatched)
    {
      action := Pause;
      if !dispatched {
        ReceiveRequestHeaders(hs);
        if !dispatched {
          if endOfStream {
            action := Complete(env, during);
          } else if isInvalidation {
            action := Continue;
          }
        }
      }
    }

    method OnHttpRequestBody(bodySize: nat, chunk: Option<seq<byte>>, endOfStream: bool, env: Env, during: Meanwhile)
      returns (action: Action)
      requires Ready(during) && Sees(env, shared.store)
      modifies this, request, shared
      ensures shared.Valid() && View() == BodyStep(cfg, old(View()), bodySize, chunk, endOfStream, env)
      ensures CarriedOut(cfg, old(View()), View(), old(shared.store), old(shared.log), shared.log, me, during)
      ensures action == Continue <==> ForwardAdded(old(effects), effects)
    {
      action := Pause;
      if !dispatched {
        ReceiveRequestBody(bodySize, chunk);
        if endOfStream && !dispatched {
          action := Complete(env, during);
        }
      }
    }

    /** The end of the stream, reached in the headers or in the body. */
    method Complete(env: Env, during: Meanwhile) returns (action: Action)
      requires Ready(during) && Sees(env, shared.store)
      modifies this, request, shared
      ensures shared.Valid() && View() == Conclude(cfg, old(View()), env)
      ensures CarriedOut(cfg, old(View()), View(), old(shared.store), old(shared.log), shared.log, me, during)
      ensures action == Continue <==> ForwardAdded(old(effects), effects)
    {
      if isInvalidation {
        action := HandleInvalidationRequest(during);
      } else {
        action := DispatchCheckRequest(env);
      }
    }

    /** `mem::take` of the collected fields. */
    method TakeFields() returns (req: HttpRequest)
      modifies `verb, `path, `query, `host, `scheme, `requestId, `headers, `bodyBuf
      ensures PartsView() == NO_PARTS && bodyBuf == []
      ensures req == ToHttp(old(PartsView()), old(bodyBuf))
    {
      req := HttpRequest(requestId, verb, headers, path, host, scheme, query, |bodyBuf|, bodyBuf);
      verb, path, query, host, scheme, requestId := "", "", "", "", "", "";
      headers := map[];
      bodyBuf := [];
    }

    method TakeParts() returns (req: HttpRequest)
      modifies `dispatched, `verb, `path, `query, `host, `scheme, `requestId, `headers, `bodyBuf
      ensures View() == Emptied(old(View()))
      ensures req == ToHttp(old(PartsView()), old(bodyBuf))
    {
      req := TakeFields();
      dispatched := true;
      assert View().parts == PartsView();
    }

    method NoteCheck(req: HttpRequest, key: Option<string>, ghost full: string)
      requires key == if cfg.cacheEnabled then Some(full) else None
      modifies `checks, `cacheKey
      ensures View() == Noted(cfg, old(View()), req, full)
    {
      checks := checks + [Check(req, full)];
      if key.Some? {
        cacheKey := key;
      }
    }

    method DispatchGrpcCall(req: HttpRequest, env: Env)
      modifies `grpcToken, `calls, `effects
      ensures View() == CallService(old(View()), req, env)
    {
      if !env.encodes {
        SendHttpResponse(500, PLAIN, Some("Failed to encode authz request"));
      } else if env.dispatch.Some? {
        grpcToken := env.dispatch;
        calls := calls + [Call(env.dispatch.value, req)];
      } else {
        SendHttpResponse(503, PLAIN, Some("Authz service unavailable"));
      }
    }

    /** Acts on a cached decision. */
    method ReplayEntry(e: CacheEntry) returns (action: Action)
      modifies `effects, request
      ensures View() == Act(old(View()), ReplayEffect(e, old(request.headers)))
      ensures action == (if e.allowed then Continue else Pause)
    {
      if e.allowed {
        ForwardWith(FromCachedAll(e.requestHeaderMutations));
        return Continue;
      }
      var body := if e.deniedBody == "" then "Forbidden" else e.deniedBody;
      SendHttpResponse(e.deniedStatus, LocalReplyHeaders(FromCachedHeaders(e.responseHeaders)), Some(body));
      return Pause;
    }

    method GetCacheEntry(key: string, now: u64) returns (entry: Option<CacheEntry>)
      ensures entry == Lookup(GetShard(shared.store, ShardId(key)), key, now)
    {
      var shard, _ := shared.GetSharedData(ShardId(key));
      entry := Lookup(shard, key, now);
    }

    /** Builds the check request and, when the cache is on, its key. */
    method BuildCheckRequest() returns (req: HttpRequest, key: Option<string>)
      modifies this
      ensures View() == TakeRequest(cfg, old(View()))
      ensures req == ToHttp(old(PartsView()), old(bodyBuf))
      ensures key == if cfg.cacheEnabled then Some(CacheKeyOf(cfg, req)) else None
    {
      req := TakeParts();
      key := None;
      if cfg.cacheEnabled {
        var computed := KeyFor(req);
        key := Some(computed);
      }
      NoteCheck(req, key, CacheKeyOf(cfg, req));
    }

    method DispatchCheckRequest(env: Env) returns (action: Action)
      requires Sees(env, shared.store)
      modifies this, request
      ensures View() == Dispatch(cfg, old(View()), env)
      ensures action == Continue <==> ForwardAdded(old(effects), effects)
    {
      var req, key := BuildCheckRequest();
      if key.Some? {
        var entry := GetCacheEntry(key.value, env.now);
        if entry.Some? {
          action := ReplayEntry(entry.value);
          return;
        }
      }
      DispatchGrpcCall(req, env);
      return Pause;
    }

    /** Stores a decision under the key of the request, when the cache is on. */
    method StoreDecision(decision: AuthorizationDecision, during: Meanwhile)
      requires Ready(during)
      modifies `stores, shared
      ensures shared.Valid()
      ensures stores == if cfg.cacheEnabled then old(stores) + [StoreRequest(cacheKey, decision, turn)] else old(stores)
      ensures if cfg.cacheEnabled
              then StoreDone(cfg, StoreRequest(cacheKey, decision, turn), old(shared.store), old(shared.log), shared.log, me, during)
              else shared.log == old(shared.log)
      ensures old(shared.log) <= shared.log
    {
      if cfg.cacheEnabled {
        stores := stores + [StoreRequest(cacheKey, decision, turn)];
        var _ := shared.StoreCacheEntry(me, cacheKey, decision, cfg.ttl, cfg.maxEntries, during.clock, during.others);
      }
    }

    /** Stores a decision and acts on it. */
    method ApplyDecision(decision: AuthorizationDecision, during: Meanwhile)
      requires Ready(during)
      modifies `stores, `effects, request, shared
      ensures shared.Valid() && View() == Decided(cfg, old(View()), decision)
      ensures CarriedOut(cfg, old(View()), View(), old(shared.store), old(shared.log), shared.log, me, during)
    {
      StoreDecision(decision, during);
      match decision {
        case Allow(mutations) => ForwardWith(mutations);
        case Deny(code, text, replyHeaders) => SendHttpResponse(code, LocalReplyHeaders(replyHeaders), Some(text));
      }
    }

    method OnGrpcCallResponse(token: nat, status: nat, body: GrpcBody, during: Meanwhile)
      requires Ready(during)
      modifies this, request, shared
      ensures shared.Valid() && View() == GrpcStep(cfg, old(View()), token, status, body)
      ensures CarriedOut(cfg, old(View()), View(), old(shared.store), old(shared.log), shared.log, me, during)
    {
      if grpcToken == Some(token) {
        grpcToken := None;
        if status != 0 {
          SendHttpResponse(503, PLAIN, Some("Authz service unavailable"));
        } else {
          match body {
            case NoBody => SendHttpResponse(500, PLAIN, Some("Empty authz response"));
            case BadBody => SendHttpResponse(500, PLAIN, Some("Invalid authz response"));
            case Body(response) => ApplyDecision(FromCheckResponse(response), during);
          }
        }
      }
    }

    /** Purges what the request names. */
    method PurgeAsAsked(purge: InvalidationRequest, during: Meanwhile)
      requires Ready(during) && (purge.op.PurgeKey? ==> purge.key.Some?)
      modifies shared
      ensures shared.Valid() && old(shared.log) <= shared.log
      ensures PurgeDone(purge, old(shared.store), old(shared.log), shared.log, me, during)
    {
      match purge.op {
        case PurgeKey => var _ := shared.PurgeCacheKey(me, purge.key.value, during.others);
        case PurgeAll => var _ := shared.PurgeAllCacheShards(me, during.others);
      }
    }

    /** Purges and replies 204. */
    method Purge(request: InvalidationRequest, during: Meanwhile)
      requires Ready(during) && (request.op.PurgeKey? ==> request.key.Some?)
      modifies `purges, `effects, shared
      ensures shared.Valid() && View() == Purged(old(View()), request)
      ensures CarriedOut(cfg, old(View()), View(), old(shared.store), old(shared.log), shared.log, me, during)
    {
      purges := purges + [request];
      PurgeAsAsked(request, during);
      SendHttpResponse(204, [], None);
    }

    /** The reply is 204 whether or not the purge got through. */
    method HandleInvalidationRequest(during: Meanwhile) returns (action: Action)
      requires Ready(during)
      modifies this, shared
      ensures shared.Valid() && View() == Invalidate(cfg, old(View())) && action == Pause
      ensures CarriedOut(cfg, old(View()), View(), old(shared.store), old(shared.log), shared.log, me, during)
    {
      dispatched := true;
      if !Authorized(cfg, headers) {
        SendHttpResponse(401, PLAIN, Some("Unauthorized"));
        return Pause;
      }
      var parsed := ParseInvalidation(cfg, bodyBuf);
      if parsed.Err? {
        SendHttpResponse(400, PLAIN, Some(parsed.error));
        return Pause;
      }
      Purge(parsed.value, during);
      return Pause;
    }

    ghost method EndTurn()
      modifies `turn
      ensures View() == NextTurn(old(View()))
    {
      turn := turn + 1;
    }

    /** The host makes one callback. */
    method Handle(cb: Callback, during: Meanwhile) returns (action: Action)
      requires Ready(during) && (!cb.OnGrpc? ==> Sees(cb.env, shared.store))
      modifies this, request, shared
      ensures shared.Valid() && View() == StepFilter(cfg, old(View()), cb)
      ensures CarriedOut(cfg, old(View()), View(), old(shared.store), old(shared.log), shared.log, me, during)
    {
      match cb {
        case OnHeaders(hs, endOfStream, env) => action := OnHttpRequestHeaders(hs, endOfStream, env, during);
        case OnBody(size, chunk, endOfStream, env) => action := OnHttpRequestBody(size, chunk, endOfStream, env, during);
        case OnGrpc(token, status, body) => OnGrpcCallResponse(token, status, body, during); action := Pause;
      }
      EndTurn();
    }

    /** Other instances write `before`; then the host makes the callback `raw`, which finds what the
        writes in `read` have left. */
    method HandleAfter(before: seq<Commit>, raw: Callback, during: Meanwhile) returns (cb: Callback, ghost read: seq<Commit>)
      requires Ready(during) && Foreign(before, me)
      modifies this, request, shared
      ensures shared.Valid() && old(shared.log) <= read <= shared.log
      ensures Observes(cb, raw, read) && View() == StepFilter(cfg, old(View()), cb)
    {
      shared.Interference(before, me);
      cb, read := Observing(raw, shared.store), shared.log;
      var _ := Handle(cb, during);
    }
  }

  /** Callback `i` found what the first `at[i]` writes of the log had left, after the first `from`. */
  ghost predicate History(cbs: seq<Callback>, seen: seq<Callback>, at: seq<nat>, log: seq<Commit>, from: nat) {
    && |seen| == |at| <= |cbs|
    && forall i :: 0 <= i < |at| ==> from <= at[i] <= |log| && Observes(seen[i], cbs[i], log[..at[i]])
  }

  lemma HistorySnoc(cbs: seq<Callback>, seen: seq<Callback>, at: seq<nat>, before: seq<Commit>, read: seq<Commit>, log: seq<Commit>, from: nat, cb: Callback)
    requires History(cbs, seen, at, before, from) && |at| < |cbs| && from <= |before|
    requires before <= read <= log && Observes(cb, cbs[|at|], read)
    ensures History(cbs, seen + [cb], at + [|read|], log, from)
  {
    assert log[..|read|] == read;
    forall i | 0 <= i < |at| ensures log[..at[i]] == before[..at[i]] {}
  }

  /** A new filter object, given any callbacks in any order while other instances write the shared data
      before and during each of them, ends in the state that `RunFilter` says for these callbacks and
      what they found in the shared data. */
  method Serve(cfg: Settings, me: nat, shared: SharedData, cbs: seq<Callback>, before: nat -> seq<Commit>, during: nat -> Meanwhile)
    returns (filter: Instance, seen: seq<Callback>, ghost at: seq<nat>)
    requires shared.Valid()
    requires forall i :: Foreign(before(i), me)
    requires forall i, j :: Foreign(during(i).others(j), me)
    modifies shared
    ensures fresh(filter) && fresh(filter.request) && filter.cfg == cfg && shared.Valid()
    ensures old(shared.log) <= shared.log && |seen| == |cbs| && History(cbs, seen, at, shared.log, |old(shared.log)|)
    ensures filter.View() == RunFilter(cfg, seen)
  {
    filter := new Instance(cfg, me, shared);
    seen, at := [], [];
    for i := 0 to |cbs|
      invariant fresh(filter) && fresh(filter.request) && filter.cfg == cfg && filter.me == me && filter.shared == shared
      invariant shared.Valid() && old(shared.log) <= shared.log
      invariant |seen| == i && History(cbs, seen, at, shared.log, |old(shared.log)|)
      invariant filter.View() == RunFilter(cfg, seen)
    {
      label Before:
      var cb, read := filter.HandleAfter(before(i), cbs[i], during(i));
      HistorySnoc(cbs, seen, at, old@Before(shared.log), read, shared.log, |old(shared.log)|, cb);
      assert (seen + [cb])[..i] == seen;
      seen, at := seen + [cb], at + [|read|];
    }
  }
}
