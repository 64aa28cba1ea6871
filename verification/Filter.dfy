/** One request's filter: what each host callback does, as a function of the state before it. */
module Filter {
  import opened Wrappers
  import opened Ascii
  import opened Cache
  import opened CacheKey
  import opened Decision
  import opened HeaderMap
  import opened Replay

  // --- the surroundings ----------------------------------------------------------------------------

  datatype InvalidationOp = PurgeKey | PurgeAll

  datatype InvalidationRequest = InvalidationRequest(version: nat, op: InvalidationOp, key: Option<string>)

  /** The configured values, and the library functions that are kept uninterpreted: the two hashes and
      the JSON parser. */
  datatype Settings = Settings(
    maxBody: nat,
    cacheEnabled: bool,
    policy: HeaderPolicy,
    ttl: u64,
    maxEntries: nat,
    secret: string,
    bodyHash: seq<byte> -> u64,
    keyHash: seq<Atom> -> u64,
    parseJson: seq<byte> -> Option<InvalidationRequest>)

  /** What the host answers during one callback: the clock, the shared shards, whether the request
      could be encoded, and the token of the gRPC call unless it was refused. */
  datatype Env = Env(now: u64, shards: nat -> Shard, encodes: bool, dispatch: Option<nat>)

  datatype GrpcBody = NoBody | BadBody | Body(response: CheckResponse)

  /** `chunk` is what the host returns when the new bytes are asked for. */
  datatype Callback =
    | OnHeaders(headers: seq<Header>, endOfStream: bool, env: Env)
    | OnBody(bodySize: nat, chunk: Option<seq<byte>>, endOfStream: bool, env: Env)
    | OnGrpc(token: nat, status: nat, body: GrpcBody)

  datatype Action = Continue | Pause

  // --- the state -------------------------------------------------------------------------------------

  datatype Parts = Parts(
    verb: string,
    path: string,
    query: string,
    host: string,
    scheme: string,
    requestId: string,
    headers: map<string, string>)

  const NO_PARTS: Parts := Parts("", "", "", "", "", "", map[])

  /** The final say on a request, and the callback that had it. */
  datatype Acted = Acted(effect: Effect, turn: nat)

  /** A check request that was built. */
  datatype Check = Check(request: HttpRequest, key: string)

  datatype Call = Call(token: nat, request: HttpRequest)

  /** A decision to store, and the callback that asked for it. */
  datatype StoreRequest = StoreRequest(key: Option<string>, decision: AuthorizationDecision, turn: nat)

  datatype FilterState = FilterState(
    grpcToken: Option<nat>,
    cacheKey: Option<string>,
    isInvalidation: bool,
    dispatched: bool,
    parts: Parts,
    bodyBuf: seq<byte>,
    bodySeen: nat,
    upstream: seq<Header>,       // the host's copy of the request headers
    checks: seq<Check>,          // history from here on
    calls: seq<Call>,
    effects: seq<Acted>,
    stores: seq<StoreRequest>,
    purges: seq<InvalidationRequest>,
    turn: nat)

  const FRESH: FilterState :=
    FilterState(None, None, false, false, NO_PARTS, [], 0, [], [], [], [], [], [], 0)

  // --- request headers ---------------------------------------------------------------------------------

  /** The position of the first `?`, or the length. */
  function QueryMark(s: string): (r: nat)
    ensures r <= |s|
  {
    if s == [] || s[0] == '?' then 0 else 1 + QueryMark(s[1..])
  }

  function ParseOne(p: Parts, h: Header): Parts {
    if h.name == ":method" then p.(verb := h.value)
    else if h.name == ":path" then
      var pos := QueryMark(h.value);
      if pos < |h.value| then p.(path := h.value[..pos], query := h.value[pos + 1..])
      else p.(path := h.value)
    else if h.name == ":authority" then p.(host := h.value)
    else if h.name == ":scheme" then p.(scheme := h.value)
    else if EqIgnoreCase(h.name, "x-request-id") then p.(requestId := h.value)
    else if StartsWith(h.name, ':') then p
    else p.(headers := p.headers[Lower(h.name) := h.value])
  }

  function ParseHeaders(p: Parts, hs: seq<Header>): Parts {
    if hs == [] then p else ParseOne(ParseHeaders(p, hs[..|hs| - 1]), hs[|hs| - 1])
  }

  /** The last `content-length` that parses as a 32-bit `usize`. */
  function ContentLength(hs: seq<Header>): Option<nat> {
    if hs == [] then None else
      var last := hs[|hs| - 1];
      var length := ParseUint(last.value, 10, WORD32 - 1);
      if EqIgnoreCase(last.name, "content-length") && length.Some? then length
      else ContentLength(hs[..|hs| - 1])
  }

  lemma NotContentLength(name: string)
    requires name in {":method", ":path", ":authority", ":scheme"}
             || EqIgnoreCase(name, "x-request-id") || StartsWith(name, ':')
    ensures !EqIgnoreCase(name, "content-length")
  {
    assert |Lower(name)| == |name| && |Lower("content-length")| == 14;
    if EqIgnoreCase(name, "x-request-id") { assert |Lower("x-request-id")| == 12; }
    if StartsWith(name, ':') { assert Lower(name)[0] == ':' && Lower("content-length")[0] == 'c'; }
  }

  function ToHttp(p: Parts, body: seq<byte>): HttpRequest {
    HttpRequest(p.requestId, p.verb, p.headers, p.path, p.host, p.scheme, p.query, |body|, body)
  }

  lemma {:induction false} OrderExists(m: map<string, string>) returns (order: seq<string>)
    ensures IsOrder(m, order)
    decreases |m|
  {
    if m == map[] {
      order := [];
    } else {
      var k :| k in m;
      var rest := m - {k};
      assert rest.Keys == m.Keys - {k};
      var init := OrderExists(rest);
      order := init + [k];
      assert m.Keys == rest.Keys + {k};
      assert multiset(m.Keys) == multiset(rest.Keys) + multiset{k};
      forall x | x in order ensures x in m { assert x in init ==> x in rest; }
    }
  }

  /** The cache key of a request; `KeyIsWellDefined` shows that the iteration order does not matter. */
  ghost function CacheKeyOf(cfg: Settings, req: HttpRequest): string {
    if order :| IsOrder(req.headers, order)
    then FormatKey(cfg.keyHash(Feed(InputOf(req, order, cfg.policy, cfg.bodyHash)))) else ""
  }

  lemma KeyIsWellDefined(cfg: Settings, req: HttpRequest, order: seq<string>)
    requires IsOrder(req.headers, order)
    ensures CacheKeyOf(cfg, req) == FormatKey(cfg.keyHash(Feed(InputOf(req, order, cfg.policy, cfg.bodyHash))))
  {
    forall other | IsOrder(req.headers, other)
      ensures Feed(InputOf(req, other, cfg.policy, cfg.bodyHash)) == Feed(InputOf(req, order, cfg.policy, cfg.bodyHash))
    {
      FedAlikeIff(req, other, req, order, cfg.policy, cfg.bodyHash);
    }
  }

  // --- the callbacks -------------------------------------------------------------------------------

  const PLAIN: seq<(string, string)> := [("content-type", "text/plain")]

  function PlainReply(status: nat, body: string): Effect {
    Reply(status, PLAIN, Some(body))
  }

  function Act(st: FilterState, effect: Effect): FilterState {
    st.(effects := st.effects + [Acted(effect, st.turn)],
        upstream := if effect.Forward? then effect.headers else st.upstream)
  }

  function Reject(st: FilterState): FilterState {
    Act(st.(dispatched := true), PlainReply(413, "Payload Too Large"))
  }

  function Emptied(st: FilterState): FilterState {
    st.(dispatched := true, parts := NO_PARTS, bodyBuf := [])
  }

  function Noted(cfg: Settings, st: FilterState, req: HttpRequest, key: string): FilterState {
    st.(checks := st.checks + [Check(req, key)],
        cacheKey := if cfg.cacheEnabled then Some(key) else st.cacheKey)
  }

  /** Moves the collected request out of the filter and remembers its key. */
  ghost function TakeRequest(cfg: Settings, st: FilterState): FilterState {
    var req := ToHttp(st.parts, st.bodyBuf);
    Noted(cfg, Emptied(st), req, CacheKeyOf(cfg, req))
  }

  function CallService(st: FilterState, req: HttpRequest, env: Env): FilterState {
    if !env.encodes then Act(st, PlainReply(500, "Failed to encode authz request"))
    else
      match env.dispatch
      case None => Act(st, PlainReply(503, "Authz service unavailable"))
      case Some(token) => st.(grpcToken := Some(token), calls := st.calls + [Call(token, req)])
  }

  function CachedEntry(cfg: Settings, key: string, env: Env): Option<CacheEntry> {
    if cfg.cacheEnabled then Lookup(env.shards(ShardId(key)), key, env.now) else None
  }

  /** Builds the check request, answers from the cache if it can, and calls the service if it cannot. */
  ghost function Dispatch(cfg: Settings, st: FilterState, env: Env): FilterState {
    var req := ToHttp(st.parts, st.bodyBuf);
    var hit := CachedEntry(cfg, CacheKeyOf(cfg, req), env);
    if hit.Some? then Act(TakeRequest(cfg, st), ReplayEffect(hit.value, st.upstream))
    else CallService(TakeRequest(cfg, st), req, env)
  }

  const INVALIDATION_PATH: string := "/_cextauthz/cache/invalidate"
  const SECRET_HEADER: string := "x-cextauthz-invalidation-secret"

  predicate Authorized(cfg: Settings, headers: map<string, string>) {
    cfg.secret != "" && SECRET_HEADER in headers && headers[SECRET_HEADER] == cfg.secret
  }

  function ParseInvalidation(cfg: Settings, body: seq<byte>): (r: Result<InvalidationRequest, string>)
    ensures r.Ok? && r.value.op.PurgeKey? ==> r.value.key.Some? && "cache:" <= r.value.key.value
    ensures r.Ok? ==> r.value.version == 1
  {
    match cfg.parseJson(body)
    case None => Err("invalid json")
    case Some(r) =>
      if r.version != 1 then Err("unsupported version")
      else if r.op.PurgeAll? then Ok(r)
      else if r.key.None? then Err("purge_key requires key")
      else if !("cache:" <= r.key.value) then Err("invalid cache key")
      else Ok(r)
  }

  function Purged(st: FilterState, request: InvalidationRequest): FilterState {
    Act(st.(purges := st.purges + [request]), Reply(204, [], None))
  }

  function Invalidate(cfg: Settings, st: FilterState): FilterState {
    var taken := st.(dispatched := true);
    if !Authorized(cfg, st.parts.headers) then Act(taken, PlainReply(401, "Unauthorized"))
    else
      match ParseInvalidation(cfg, st.bodyBuf)
      case Err(message) => Act(taken, PlainReply(400, message))
      case Ok(request) => Purged(taken, request)
  }

  /** The request is complete. */
  ghost function Conclude(cfg: Settings, st: FilterState, env: Env): FilterState {
    if st.isInvalidation then Invalidate(cfg, st) else Dispatch(cfg, st, env)
  }

  /** What is left to do after the headers or body bytes of this callback have been received. */
  ghost function Finish(cfg: Settings, st: FilterState, endOfStream: bool, env: Env): FilterState {
    if endOfStream && !st.dispatched then Conclude(cfg, st, env) else st
  }

  function ReadParts(st: FilterState, hs: seq<Header>): FilterState {
    st.(parts := ParseHeaders(st.parts.(headers := map[]), hs), upstream := hs)
  }

  function Classify(st: FilterState): FilterState {
    st.(isInvalidation := st.parts.verb == "POST" && st.parts.path == INVALIDATION_PATH)
  }

  function ReceiveHeaders(cfg: Settings, st: FilterState, hs: seq<Header>): FilterState {
    var read := ReadParts(st, hs);
    var length := ContentLength(hs);
    if length.Some? && length.value > cfg.maxBody then Reject(read) else Classify(read)
  }

  function ReceiveBody(cfg: Settings, st: FilterState, bodySize: nat, chunk: Option<seq<byte>>): FilterState {
    if bodySize > cfg.maxBody then Reject(st)
    else if bodySize > st.bodySeen then
      st.(bodyBuf := if chunk.Some? then st.bodyBuf + chunk.value else st.bodyBuf, bodySeen := bodySize)
    else st
  }

  /** The state after the headers or body bytes of a callback have been received. */
  function Received(cfg: Settings, st: FilterState, cb: Callback): FilterState
    requires !cb.OnGrpc?
  {
    if cb.OnHeaders? then ReceiveHeaders(cfg, st, cb.headers) else ReceiveBody(cfg, st, cb.bodySize, cb.chunk)
  }

  ghost function HeadersStep(cfg: Settings, st: FilterState, hs: seq<Header>, endOfStream: bool, env: Env): FilterState {
    if st.dispatched then st else Finish(cfg, ReceiveHeaders(cfg, st, hs), endOfStream, env)
  }

  ghost function BodyStep(cfg: Settings, st: FilterState, bodySize: nat, chunk: Option<seq<byte>>, endOfStream: bool, env: Env): FilterState {
    if st.dispatched then st else Finish(cfg, ReceiveBody(cfg, st, bodySize, chunk), endOfStream, env)
  }

  /** Stores the decision, when the cache is on, and applies it. */
  function Decided(cfg: Settings, st: FilterState, decision: AuthorizationDecision): FilterState {
    var stored := if cfg.cacheEnabled
                  then st.(stores := st.stores + [StoreRequest(st.cacheKey, decision, st.turn)])
                  else st;
    Act(stored, LiveEffect(decision, st.upstream))
  }

  function GrpcStep(cfg: Settings, st: FilterState, token: nat, status: nat, body: GrpcBody): FilterState {
    if st.grpcToken != Some(token) then st else
      var answered := st.(grpcToken := None);
      if status != 0 then Act(answered, PlainReply(503, "Authz service unavailable"))
      else
        match body
        case NoBody => Act(answered, PlainReply(500, "Empty authz response"))
        case BadBody => Act(answered, PlainReply(500, "Invalid authz response"))
        case Body(response) => Decided(cfg, answered, FromCheckResponse(response))
  }

  function NextTurn(st: FilterState): FilterState {
    st.(turn := st.turn + 1)
  }

  ghost function StepFilter(cfg: Settings, st: FilterState, cb: Callback): FilterState {
    NextTurn(match cb
             case OnHeaders(hs, endOfStream, env) => HeadersStep(cfg, st, hs, endOfStream, env)
             case OnBody(size, chunk, endOfStream, env) => BodyStep(cfg, st, size, chunk, endOfStream, env)
             case OnGrpc(token, status, body) => GrpcStep(cfg, st, token, status, body))
  }

  /** The state after any sequence of callbacks. */
  ghost function RunFilter(cfg: Settings, cbs: seq<Callback>): FilterState {
    if cbs == [] then FRESH else StepFilter(cfg, RunFilter(cfg, cbs[..|cbs| - 1]), cbs[|cbs| - 1])
  }
}
