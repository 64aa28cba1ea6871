/** What comes of a request, callback by callback, in terms of what the client, the service and the
    cache said.  Every callback is covered: it rejects, concludes, answers, or changes nothing.
 */
module Outcomes {
  import opened Wrappers
  import opened Ascii
  import opened Cache
  import opened CacheKey
  import opened Decision
  import opened HeaderMap
  import opened Replay
  import opened Filter
  import opened FilterTheorems
  import opened Requests

  // --- the request as the filter holds it ------------------------------------------------------------

  /** Until the request is over the filter holds just what the callbacks said, and has done nothing. */
  ghost predicate Collects(cbs: seq<Callback>, st: FilterState) {
    && !st.dispatched && ReadsAs(st.parts, AllHeaders(cbs), LastHeaders(cbs))
    && st.isInvalidation == IsInvalidation(cbs) && (st.bodyBuf, st.bodySeen) == BodyOf(cbs)
    && st.upstream == LastHeaders(cbs)
    && Untouched(st)
  }

  ghost predicate Untouched(st: FilterState) {
    st.grpcToken.None? && st.checks == [] && st.calls == [] && st.effects == [] && st.stores == [] && st.purges == []
  }

  /** A 413 and nothing else. */
  ghost predicate Rejected(st: FilterState, turn: nat) {
    && st.dispatched && st.grpcToken.None? && st.checks == [] && st.calls == [] && st.stores == [] && st.purges == []
    && st.effects == [Acted(Reply(413, [("content-type", "text/plain")], Some("Payload Too Large")), turn)]
  }

  lemma OverSnoc(cfg: Settings, cbs: seq<Callback>)
    requires cbs != []
    ensures var last := cbs[|cbs| - 1];
            Over(cfg, cbs) <==> Over(cfg, cbs[..|cbs| - 1]) || EndsStream(last) || TooLarge(cfg, last)
  {
    var init := cbs[..|cbs| - 1];
    assert forall i :: 0 <= i < |init| ==> init[i] == cbs[i];
    if i :| 0 <= i < |init| && (EndsStream(init[i]) || TooLarge(cfg, init[i])) {
      assert EndsStream(cbs[i]) || TooLarge(cfg, cbs[i]);
    }
  }

  lemma {:induction false} PathIsTarget(all: seq<Header>, path: string, query: string, target: string)
    requires PathIs(all, path, query) && target != "" && '?' !in target
    ensures path == target
            <==> LastNamed(all, ":path").Some?
                 && (LastNamed(all, ":path").value == target || exists q :: Splits(LastNamed(all, ":path").value, target, q))
  {
    if LastNamed(all, ":path").Some? { SplitsThere(LastNamed(all, ":path").value); }
  }

  lemma {:induction false} PathNamesInvalidation(p: Parts, all: seq<Header>)
    requires PathIs(all, p.path, p.query)
    ensures p.path == INVALIDATION_PATH <==> LastNamed(all, ":path").Some? && NamesInvalidation(LastNamed(all, ":path").value)
  {
    PathIsTarget(all, p.path, p.query, INVALIDATION_PATH);
  }

  lemma {:induction false} HeadersCollect(cfg: Settings, cbs: seq<Callback>, st: FilterState)
    requires cbs != [] && cbs[|cbs| - 1].OnHeaders? && Collects(cbs[..|cbs| - 1], st)
    ensures var mid := Received(cfg, st, cbs[|cbs| - 1]);
            if TooLarge(cfg, cbs[|cbs| - 1]) then Rejected(mid, st.turn) else Collects(cbs, mid)
  {
    var init, hs := cbs[..|cbs| - 1], cbs[|cbs| - 1].headers;
    LengthIs(hs, cfg.maxBody);
    ReadsMore(st.parts, AllHeaders(init), LastHeaders(init), hs);
    PathNamesInvalidation(ParseHeaders(st.parts.(headers := map[]), hs), AllHeaders(cbs));
  }

  lemma {:induction false} BodyCollects(cfg: Settings, cbs: seq<Callback>, st: FilterState)
    requires cbs != [] && cbs[|cbs| - 1].OnBody? && Collects(cbs[..|cbs| - 1], st)
    ensures var mid := Received(cfg, st, cbs[|cbs| - 1]);
            if TooLarge(cfg, cbs[|cbs| - 1]) then Rejected(mid, st.turn) else Collects(cbs, mid)
  {
    assert AllHeaders(cbs) == AllHeaders(cbs[..|cbs| - 1]) && LastHeaders(cbs) == LastHeaders(cbs[..|cbs| - 1]);
  }

  /** Receiving headers or body bytes, before anything is done about them. */
  lemma {:induction false} ReceiveCollects(cfg: Settings, cbs: seq<Callback>, st: FilterState)
    requires cbs != [] && !cbs[|cbs| - 1].OnGrpc? && Collects(cbs[..|cbs| - 1], st)
    ensures var mid := Received(cfg, st, cbs[|cbs| - 1]);
            && mid.turn == st.turn
            && if TooLarge(cfg, cbs[|cbs| - 1]) then Rejected(mid, st.turn) else Collects(cbs, mid)
  {
    if cbs[|cbs| - 1].OnHeaders? { HeadersCollect(cfg, cbs, st); } else { BodyCollects(cfg, cbs, st); }
  }

  /** A callback to a request that is not over: it collects, rejects or concludes. */
  lemma {:induction false} OpenStep(cfg: Settings, cbs: seq<Callback>, st: FilterState)
    requires cbs != [] && Collects(cbs[..|cbs| - 1], st)
    ensures var last := cbs[|cbs| - 1];
            var n := StepFilter(cfg, st, last);
            if TooLarge(cfg, last) then Rejected(n, st.turn)
            else if EndsStream(last) then
              Collects(cbs, Received(cfg, st, last)) && Received(cfg, st, last).turn == st.turn
              && n == NextTurn(Conclude(cfg, Received(cfg, st, last), last.env))
            else Collects(cbs, n)
  {
    var last := cbs[|cbs| - 1];
    if last.OnGrpc? {
      assert AllHeaders(cbs) == AllHeaders(cbs[..|cbs| - 1]) && LastHeaders(cbs) == LastHeaders(cbs[..|cbs| - 1]);
      assert StepFilter(cfg, st, last) == NextTurn(st);
    } else {
      ReceiveCollects(cfg, cbs, st);
      var mid := Received(cfg, st, last);
      assert StepFilter(cfg, st, last) == NextTurn(Finish(cfg, mid, last.endOfStream, last.env));
    }
  }

  /** What a concluded request may still do later: answer with the headers it has. */
  ghost predicate Concluded(st: FilterState, own: seq<Callback>) {
    st.dispatched && (st.effects == [] ==> st.upstream == LastHeaders(own))
  }

  lemma {:induction false} ConcludeConcludes(cfg: Settings, cbs: seq<Callback>, mid: FilterState, env: Env)
    requires Collects(cbs, mid)
    ensures Concluded(Conclude(cfg, mid, env), cbs)
  {
    if !mid.isInvalidation { DispatchedUpstream(cfg, mid, env); }
  }

  lemma DispatchedUpstream(cfg: Settings, st: FilterState, env: Env)
    ensures var n := Dispatch(cfg, st, env);
            n.dispatched && (n.effects == [] ==> n.upstream == st.upstream)
  {
  }

  lemma LateStep(cfg: Settings, st: FilterState, cb: Callback, own: seq<Callback>)
    requires Concluded(st, own) && OneAction(cfg, st)
    ensures var n := StepFilter(cfg, st, cb);
            && Concluded(n, own) && n.checks == st.checks && n.calls == st.calls && n.purges == st.purges
            && (!cb.OnGrpc? || st.grpcToken != Some(cb.token) ==> n == NextTurn(st))
  {
    match cb
    case OnHeaders(_, _, _) =>
    case OnBody(_, _, _, _) =>
    case OnGrpc(token, status, body) => AnswerKeeps(cfg, st, token, status, body);
  }

  lemma AnswerKeeps(cfg: Settings, st: FilterState, token: nat, status: nat, body: GrpcBody)
    ensures var n := GrpcStep(cfg, st, token, status, body);
            && n.dispatched == st.dispatched && n.checks == st.checks && n.calls == st.calls && n.purges == st.purges
            && (n.effects == [] ==> n.upstream == st.upstream)
            && (st.grpcToken != Some(token) ==> n == st)
  {
  }

  lemma {:induction false} RunStands(cfg: Settings, cbs: seq<Callback>)
    ensures var st := RunFilter(cfg, cbs);
            if Over(cfg, cbs) then Concluded(st, Own(cfg, cbs)) else Collects(cbs, st)
  {
    if cbs == [] {
      assert HeadersAre([], map[]);
    } else {
      var init, last := cbs[..|cbs| - 1], cbs[|cbs| - 1];
      var st := RunFilter(cfg, init);
      RunStands(cfg, init);
      RunDelta(cfg, init);
      OverSnoc(cfg, cbs);
      if Over(cfg, init) {
        LateStep(cfg, st, last, Own(cfg, init));
      } else {
        OpenStep(cfg, cbs, st);
        if EndsStream(last) && !TooLarge(cfg, last) {
          ConcludeConcludes(cfg, cbs, Received(cfg, st, last), last.env);
        }
      }
    }
  }

  // --- before the end, and too much ------------------------------------------------------------------

  /** Nothing is done to a request that is not over. */
  lemma {:induction false} NothingYet(cfg: Settings, cbs: seq<Callback>)
    requires !Over(cfg, cbs)
    ensures Untouched(RunFilter(cfg, cbs))
  {
    RunStands(cfg, cbs);
  }

  /** The first callback that makes the request too large gets a 413 at once, and nothing is checked. */
  lemma {:induction false} TooLargeIsRejected(cfg: Settings, cbs: seq<Callback>)
    requires cbs != [] && !Over(cfg, cbs[..|cbs| - 1]) && TooLarge(cfg, cbs[|cbs| - 1])
    ensures Rejected(RunFilter(cfg, cbs), |cbs| - 1)
  {
    RunStands(cfg, cbs[..|cbs| - 1]);
    RunDelta(cfg, cbs[..|cbs| - 1]);
    OpenStep(cfg, cbs, RunFilter(cfg, cbs[..|cbs| - 1]));
  }

  /** After the request is over, only the answer to its pending call changes anything. */
  lemma {:induction false} NothingElse(cfg: Settings, cbs: seq<Callback>)
    requires cbs != [] && Over(cfg, cbs[..|cbs| - 1])
    requires var st := RunFilter(cfg, cbs[..|cbs| - 1]);
             var last := cbs[|cbs| - 1];
             !(last.OnGrpc? && st.effects == [] && st.calls != [] && st.calls[0].token == last.token)
    ensures RunFilter(cfg, cbs) == NextTurn(RunFilter(cfg, cbs[..|cbs| - 1]))
  {
    RunStands(cfg, cbs[..|cbs| - 1]);
    RunDelta(cfg, cbs[..|cbs| - 1]);
    LateStep(cfg, RunFilter(cfg, cbs[..|cbs| - 1]), cbs[|cbs| - 1], Own(cfg, cbs[..|cbs| - 1]));
  }

  /** What the callback that completes a request concludes from. */
  lemma {:induction false} Concludes(cfg: Settings, cbs: seq<Callback>) returns (mid: FilterState)
    requires Ends(cfg, cbs)
    ensures Collects(cbs, mid) && mid.turn == |cbs| - 1
    ensures RunFilter(cfg, cbs) == NextTurn(Conclude(cfg, mid, cbs[|cbs| - 1].env))
  {
    RunStands(cfg, cbs[..|cbs| - 1]);
    RunDelta(cfg, cbs[..|cbs| - 1]);
    OpenStep(cfg, cbs, RunFilter(cfg, cbs[..|cbs| - 1]));
    mid := Received(cfg, RunFilter(cfg, cbs[..|cbs| - 1]), cbs[|cbs| - 1]);
  }

  /** A plain text reply at callback `turn`, and no other action. */
  predicate Replied(st: FilterState, status: nat, text: string, turn: nat) {
    st.effects == [Acted(Reply(status, [("content-type", "text/plain")], Some(text)), turn)]
  }

  // --- invalidation ----------------------------------------------------------------------------------

  lemma {:induction false} SecretIsCompared(cfg: Settings, cbs: seq<Callback>, headers: map<string, string>)
    requires HeadersAre(LastHeaders(cbs), headers)
    ensures Authorized(cfg, headers) <==> KnowsSecret(cfg, cbs)
  {
    SecretIsOrdinary();
  }

  lemma SecretIsOrdinary()
    ensures Ordinary("x-cextauthz-invalidation-secret")
    ensures Lower("x-cextauthz-invalidation-secret") == "x-cextauthz-invalidation-secret"
  {
    assert |Lower("x-cextauthz-invalidation-secret")| == 31 && |Lower("x-request-id")| == 12;
  }

  /** Purge `r` is asked for by the completed request `cbs`, which may ask for it. */
  ghost predicate MayPurge(cfg: Settings, cbs: seq<Callback>, r: InvalidationRequest) {
    Ends(cfg, cbs) && IsInvalidation(cbs) && KnowsSecret(cfg, cbs) && AsksFor(cfg, cbs, r)
  }

  /** A completed invalidation request is answered 401 without the secret, 204 when its body asks for a
      purge, and 400 otherwise; it purges in the second case only, and is never checked. */
  lemma {:induction false} InvalidationAnswered(cfg: Settings, cbs: seq<Callback>)
    requires Ends(cfg, cbs) && IsInvalidation(cbs)
    ensures var st := RunFilter(cfg, cbs);
            && st.checks == [] && st.calls == [] && st.stores == []
            && (!KnowsSecret(cfg, cbs) ==> st.purges == [] && Replied(st, 401, "Unauthorized", |cbs| - 1))
            && (forall r :: MayPurge(cfg, cbs, r) ==>
                  st.purges == [r] && st.effects == [Acted(Reply(204, [], None), |cbs| - 1)])
            && (KnowsSecret(cfg, cbs) && (forall r :: !AsksFor(cfg, cbs, r)) ==>
                  st.purges == [] && |st.effects| == 1 && st.effects[0].effect.Reply? && st.effects[0].effect.status == 400)
  {
    var mid := Concludes(cfg, cbs);
    SecretIsCompared(cfg, cbs, mid.parts.headers);
    PrefixIs(cfg, cbs);
    InvalidateIs(cfg, mid);
  }

  /** What a 400 says is wrong with the body. */
  lemma {:induction false} BadRequestSays(cfg: Settings, cbs: seq<Callback>)
    requires Ends(cfg, cbs) && IsInvalidation(cbs) && KnowsSecret(cfg, cbs)
    ensures var st, parsed := RunFilter(cfg, cbs), cfg.parseJson(BodyOf(cbs).0);
            && (parsed.None? ==> Replied(st, 400, "invalid json", |cbs| - 1))
            && (parsed.Some? && parsed.value.version != 1 ==> Replied(st, 400, "unsupported version", |cbs| - 1))
            && (parsed.Some? && parsed.value.version == 1 && parsed.value.op.PurgeKey? ==>
                  && (parsed.value.key.None? ==> Replied(st, 400, "purge_key requires key", |cbs| - 1))
                  && (parsed.value.key.Some? && !("cache:" <= parsed.value.key.value) ==>
                        Replied(st, 400, "invalid cache key", |cbs| - 1)))
  {
    var mid := Concludes(cfg, cbs);
    SecretIsCompared(cfg, cbs, mid.parts.headers);
    InvalidateIs(cfg, mid);
  }

  lemma PrefixIs(cfg: Settings, cbs: seq<Callback>)
    ensures forall r :: AsksFor(cfg, cbs, r) <==> ParseInvalidation(cfg, BodyOf(cbs).0) == Ok(r)
  {
  }

  lemma InvalidateIs(cfg: Settings, mid: FilterState)
    requires Untouched(mid)
    ensures var n := Invalidate(cfg, mid);
            var parsed := ParseInvalidation(cfg, mid.bodyBuf);
            && n.checks == [] && n.calls == [] && n.stores == []
            && (!Authorized(cfg, mid.parts.headers) ==> n.purges == [] && Replied(n, 401, "Unauthorized", mid.turn))
            && (Authorized(cfg, mid.parts.headers) && parsed.Ok? ==>
                  n.purges == [parsed.value] && n.effects == [Acted(Reply(204, [], None), mid.turn)])
            && (Authorized(cfg, mid.parts.headers) && parsed.Err? ==> n.purges == [] && Replied(n, 400, parsed.error, mid.turn))
  {
  }

  // --- the check -----------------------------------------------------------------------------------

  /** A completed request that is no invalidation is checked: the service or the cache is asked about
      exactly what the client sent, under the key of just that. */
  lemma {:induction false} RequestIsChecked(cfg: Settings, cbs: seq<Callback>)
    requires Ends(cfg, cbs) && !IsInvalidation(cbs)
    ensures var st := RunFilter(cfg, cbs);
            && |st.checks| == 1 && RequestIs(st.checks[0].request, cbs)
            && st.checks[0].key == CacheKeyOf(cfg, st.checks[0].request)
            && st.purges == [] && st.stores == []
  {
    var mid := Concludes(cfg, cbs);
    DispatchIs(cfg, mid, cbs[|cbs| - 1].env);
  }

  lemma DispatchIs(cfg: Settings, mid: FilterState, env: Env)
    requires Untouched(mid)
    ensures var n := Dispatch(cfg, mid, env);
            var req := ToHttp(mid.parts, mid.bodyBuf);
            var key := CacheKeyOf(cfg, req);
            var m := env.shards(ShardId(key));
            && n.checks == [Check(req, key)] && n.purges == [] && n.stores == []
            && (cfg.cacheEnabled && key in m && m[key].expiresAtMs > env.now ==>
                  n.calls == [] && n.effects == [Acted(ReplayEffect(m[key], mid.upstream), mid.turn)])
            && (!(cfg.cacheEnabled && key in m && m[key].expiresAtMs > env.now) ==>
                  && (!env.encodes ==> n.calls == [] && Replied(n, 500, "Failed to encode authz request", mid.turn))
                  && (env.encodes && env.dispatch.None? ==> n.calls == [] && Replied(n, 503, "Authz service unavailable", mid.turn))
                  && (env.encodes && env.dispatch.Some? ==> n.effects == [] && n.calls == [Call(env.dispatch.value, req)]))
  {
  }

  /** The shared data holds an entry for the request that has not expired. */
  ghost predicate Hit(cfg: Settings, cbs: seq<Callback>, key: string, e: CacheEntry) {
    && cbs != [] && !cbs[|cbs| - 1].OnGrpc? && cfg.cacheEnabled
    && var env := cbs[|cbs| - 1].env;
       key in env.shards(ShardId(key)) && e == env.shards(ShardId(key))[key] && e.expiresAtMs > env.now
  }

  /** A hit is acted on at once: the request is forwarded with the stored header changes, or denied with
      the stored status, headers and body; the service is not called. */
  lemma {:induction false} HitIsReplayed(cfg: Settings, cbs: seq<Callback>, e: CacheEntry)
    requires Ends(cfg, cbs) && !IsInvalidation(cbs)
    requires RunFilter(cfg, cbs).checks != [] && Hit(cfg, cbs, RunFilter(cfg, cbs).checks[0].key, e)
    ensures var st := RunFilter(cfg, cbs);
            && st.calls == []
            && (e.allowed ==>
                  st.effects == [Acted(Forward(ApplyAll(LastHeaders(cbs), FromCachedAll(e.requestHeaderMutations))), |cbs| - 1)])
            && (!e.allowed ==>
                  st.effects == [Acted(Reply(e.deniedStatus, LocalReplyHeaders(FromCachedHeaders(e.responseHeaders)),
                                             Some(if e.deniedBody == "" then "Forbidden" else e.deniedBody)), |cbs| - 1)])
  {
    var mid := Concludes(cfg, cbs);
    DispatchIs(cfg, mid, cbs[|cbs| - 1].env);
  }

  /** Without a hit the service is called with the checked request; if it cannot be, the request is
      refused. */
  lemma {:induction false} MissIsAsked(cfg: Settings, cbs: seq<Callback>)
    requires Ends(cfg, cbs) && !IsInvalidation(cbs)
    requires RunFilter(cfg, cbs).checks != [] && forall e :: !Hit(cfg, cbs, RunFilter(cfg, cbs).checks[0].key, e)
    ensures var st := RunFilter(cfg, cbs);
            var env := cbs[|cbs| - 1].env;
            && (!env.encodes ==> st.calls == [] && Replied(st, 500, "Failed to encode authz request", |cbs| - 1))
            && (env.encodes && env.dispatch.None? ==>
                  st.calls == [] && Replied(st, 503, "Authz service unavailable", |cbs| - 1))
            && (env.encodes && env.dispatch.Some? ==>
                  st.effects == [] && st.calls == [Call(env.dispatch.value, st.checks[0].request)])
  {
    var mid := Concludes(cfg, cbs);
    var env := cbs[|cbs| - 1].env;
    DispatchIs(cfg, mid, env);
    var key := RunFilter(cfg, cbs).checks[0].key;
    if cfg.cacheEnabled && key in env.shards(ShardId(key)) {
      assert !Hit(cfg, cbs, key, env.shards(ShardId(key))[key]);
    }
  }

  // --- the answer ----------------------------------------------------------------------------------

  /** The last callback ends the one call of the request, which was still unanswered. */
  ghost predicate Answers(cfg: Settings, cbs: seq<Callback>) {
    && cbs != [] && cbs[|cbs| - 1].OnGrpc?
    && var st := RunFilter(cfg, cbs[..|cbs| - 1]);
       st.effects == [] && st.calls != [] && st.calls[0].token == cbs[|cbs| - 1].token
  }

  /** The verdict that a successful call brought. */
  ghost predicate Brings(cfg: Settings, cbs: seq<Callback>, response: CheckResponse) {
    Answers(cfg, cbs) && cbs[|cbs| - 1].status == 0 && cbs[|cbs| - 1].body == Body(response)
  }

  lemma {:induction false} AnswerStep(cfg: Settings, cbs: seq<Callback>) returns (st: FilterState)
    requires Answers(cfg, cbs)
    ensures st == RunFilter(cfg, cbs[..|cbs| - 1]) && st.grpcToken == Some(cbs[|cbs| - 1].token)
    ensures st.turn == |cbs| - 1 && st.effects == [] && st.stores == [] && st.upstream == LastHeaders(Own(cfg, cbs))
    ensures RunFilter(cfg, cbs)
            == NextTurn(GrpcStep(cfg, st, cbs[|cbs| - 1].token, cbs[|cbs| - 1].status, cbs[|cbs| - 1].body))
    ensures st.calls != [] && (cfg.cacheEnabled ==> st.cacheKey == Some(CacheKeyOf(cfg, st.calls[0].request)))
  {
    var init := cbs[..|cbs| - 1];
    st := RunFilter(cfg, init);
    RunStands(cfg, init);
    RunDelta(cfg, init);
  }

  /** An OK answer lets the request go upstream, with the headers that the client sent as the answer
      changes them. */
  lemma {:induction false} OkForwards(cfg: Settings, cbs: seq<Callback>, response: CheckResponse, ok: OkHttpResponse)
    requires Brings(cfg, cbs, response) && response.httpResponse == Some(OkResponse(ok))
    ensures RunFilter(cfg, cbs).effects
            == [Acted(Forward(ApplyAll(LastHeaders(Own(cfg, cbs)), AllowMutationList(ok))), |cbs| - 1)]
  {
    var st := AnswerStep(cfg, cbs);
  }

  /** A denied or failed answer gives the client its status, headers and body. */
  lemma {:induction false} DenialReplies(cfg: Settings, cbs: seq<Callback>, response: CheckResponse, denied: DeniedHttpResponse)
    requires Brings(cfg, cbs, response)
    requires response.httpResponse in {Some(DeniedResponse(denied)), Some(ErrorResponse(denied))}
    ensures var st := RunFilter(cfg, cbs);
            && |st.effects| == 1 && st.effects[0].turn == |cbs| - 1 && st.effects[0].effect.Reply?
            && var reply := st.effects[0].effect;
            && (denied.status.Some? && 100 <= denied.status.value <= 599 ==> reply.status == denied.status.value)
            && (denied.status.None? || denied.status.value < 100 || 599 < denied.status.value ==> reply.status == 403)
            && reply.body == Some(if denied.body == "" then "Forbidden" else denied.body)
            && reply.replyHeaders == LocalReplyHeaders(NamedPairs(denied.headers))
  {
    var st := AnswerStep(cfg, cbs);
    DenialIs(response, denied);
  }

  /** Everything else that can come back is a refusal. */
  lemma {:induction false} FailureReplies(cfg: Settings, cbs: seq<Callback>)
    requires Answers(cfg, cbs)
    ensures var st, last := RunFilter(cfg, cbs), cbs[|cbs| - 1];
            && (last.status != 0 ==> Replied(st, 503, "Authz service unavailable", |cbs| - 1))
            && (last.status == 0 && last.body == NoBody ==> Replied(st, 500, "Empty authz response", |cbs| - 1))
            && (last.status == 0 && last.body == BadBody ==> Replied(st, 500, "Invalid authz response", |cbs| - 1))
            && (last.status == 0 && last.body == Body(CheckResponse(None)) ==> Replied(st, 403, "Forbidden", |cbs| - 1))
  {
    var st := AnswerStep(cfg, cbs);
    LocalReplyHeadersAre([]);
    assert [("content-type", "text/plain")] + [] == [("content-type", "text/plain")];
  }

  /** With the cache on, an answer that can be decoded is stored, under the key of the request that was
      sent; nothing else ever is. */
  lemma {:induction false} AnswerIsStored(cfg: Settings, cbs: seq<Callback>, response: CheckResponse)
    requires Brings(cfg, cbs, response)
    ensures var st, called := RunFilter(cfg, cbs), RunFilter(cfg, cbs[..|cbs| - 1]).calls[0];
            st.stores == if cfg.cacheEnabled
                         then [StoreRequest(Some(CacheKeyOf(cfg, called.request)), FromCheckResponse(response), |cbs| - 1)]
                         else []
  {
    var st := AnswerStep(cfg, cbs);
  }

  // --- over whole runs ---------------------------------------------------------------------------------

  /** What was checked or purged, if anything, when the request was over, is all that ever is. */
  lemma {:induction false} DecidedWhenOver(cfg: Settings, cbs: seq<Callback>)
    ensures RunFilter(cfg, cbs).checks == RunFilter(cfg, Own(cfg, cbs)).checks
    ensures RunFilter(cfg, cbs).purges == RunFilter(cfg, Own(cfg, cbs)).purges
    ensures Over(cfg, cbs) ==>
              var own := Own(cfg, cbs); own != [] && !Over(cfg, own[..|own| - 1]) && Over(cfg, own)
  {
    if cbs != [] {
      var init := cbs[..|cbs| - 1];
      if Over(cfg, init) {
        DecidedWhenOver(cfg, init);
        RunStands(cfg, init);
        RunDelta(cfg, init);
        LateStep(cfg, RunFilter(cfg, init), cbs[|cbs| - 1], Own(cfg, init));
      }
    }
  }

  /** A request is checked exactly when it was completed and is no invalidation, and what is checked is
      what the client sent. */
  lemma {:induction false} ChecksIff(cfg: Settings, cbs: seq<Callback>)
    ensures var st, own := RunFilter(cfg, cbs), Own(cfg, cbs);
            && (st.checks != [] <==> Ends(cfg, own) && !IsInvalidation(own))
            && (st.checks != [] ==> RequestIs(st.checks[0].request, own))
  {
    var own := Own(cfg, cbs);
    DecidedWhenOver(cfg, cbs);
    if Over(cfg, cbs) {
      OwnCases(cfg, own);
    } else {
      NothingYet(cfg, own);
      NotOverNoEnd(cfg, cbs);
    }
  }

  lemma NotOverNoEnd(cfg: Settings, cbs: seq<Callback>)
    requires !Over(cfg, cbs)
    ensures Own(cfg, cbs) == cbs && !Ends(cfg, cbs)
  {
    if cbs != [] { OverSnoc(cfg, cbs); }
  }

  lemma {:induction false} OwnCases(cfg: Settings, own: seq<Callback>)
    requires own != [] && Over(cfg, own) && !Over(cfg, own[..|own| - 1])
    ensures var st := RunFilter(cfg, own);
            && (st.checks != [] <==> Ends(cfg, own) && !IsInvalidation(own))
            && (st.checks != [] ==> RequestIs(st.checks[0].request, own))
            && forall r :: r in st.purges <==> MayPurge(cfg, own, r)
  {
    OverSnoc(cfg, own);
    if TooLarge(cfg, own[|own| - 1]) {
      TooLargeIsRejected(cfg, own);
    } else if IsInvalidation(own) {
      InvalidationAnswered(cfg, own);
      InvalidationPurges(cfg, own);
    } else {
      RequestIsChecked(cfg, own);
    }
  }

  lemma {:induction false} InvalidationPurges(cfg: Settings, own: seq<Callback>)
    requires Ends(cfg, own) && IsInvalidation(own)
    ensures forall r :: r in RunFilter(cfg, own).purges <==> MayPurge(cfg, own, r)
  {
    InvalidationAnswered(cfg, own);
    if KnowsSecret(cfg, own) {
      if r :| AsksFor(cfg, own, r) {
        assert MayPurge(cfg, own, r);
      }
    }
  }

  /** A request asks for purge `r` exactly when it was completed as a POST to the invalidation path, its
      last headers carry the configured, non-empty secret, and its body asks for `r`; and for one
      purge at most. */
  lemma {:induction false} PurgesIff(cfg: Settings, cbs: seq<Callback>, r: InvalidationRequest)
    ensures |RunFilter(cfg, cbs).purges| <= 1
    ensures r in RunFilter(cfg, cbs).purges <==> MayPurge(cfg, Own(cfg, cbs), r)
  {
    RunDelta(cfg, cbs);
    DecidedWhenOver(cfg, cbs);
    if Over(cfg, cbs) {
      OwnCases(cfg, Own(cfg, cbs));
    } else {
      NothingYet(cfg, cbs);
      NotOverNoEnd(cfg, cbs);
    }
  }

  // --- forwarding ------------------------------------------------------------------------------------

  /** The last callback let the request go upstream. */
  ghost predicate ForwardsNow(cfg: Settings, cbs: seq<Callback>) {
    && cbs != [] && RunFilter(cfg, cbs[..|cbs| - 1]).effects == []
    && RunFilter(cfg, cbs).effects != [] && RunFilter(cfg, cbs).effects[0].effect.Forward?
  }

  ghost predicate BringsOk(cfg: Settings, cbs: seq<Callback>) {
    exists response :: Brings(cfg, cbs, response) && response.httpResponse.Some? && response.httpResponse.value.OkResponse?
  }

  ghost predicate HitsAllowed(cfg: Settings, cbs: seq<Callback>) {
    && Ends(cfg, cbs) && !IsInvalidation(cbs) && RunFilter(cfg, cbs).checks != []
    && exists e :: Hit(cfg, cbs, RunFilter(cfg, cbs).checks[0].key, e) && e.allowed
  }

  /** A callback lets a request go upstream exactly when it brings an OK answer to its own call, or
      completes a request for which the shared data holds an unexpired allowed entry. */
  lemma {:induction false} ForwardsIff(cfg: Settings, cbs: seq<Callback>)
    ensures ForwardsNow(cfg, cbs) <==> BringsOk(cfg, cbs) || HitsAllowed(cfg, cbs)
  {
    if cbs != [] {
      if Over(cfg, cbs[..|cbs| - 1]) {
        LateForwards(cfg, cbs);
      } else {
        EarlyForwards(cfg, cbs);
      }
    }
  }

  lemma {:induction false} LateForwards(cfg: Settings, cbs: seq<Callback>)
    requires cbs != [] && Over(cfg, cbs[..|cbs| - 1])
    ensures !Ends(cfg, cbs) && (ForwardsNow(cfg, cbs) <==> BringsOk(cfg, cbs))
  {
    if Answers(cfg, cbs) {
      FailureReplies(cfg, cbs);
      if cbs[|cbs| - 1].status == 0 && cbs[|cbs| - 1].body.Body? {
        var response := cbs[|cbs| - 1].body.response;
        assert Brings(cfg, cbs, response);
        match response.httpResponse
        case None => assert response == CheckResponse(None);
        case Some(OkResponse(ok)) => OkForwards(cfg, cbs, response, ok);
        case Some(DeniedResponse(denied)) => DenialReplies(cfg, cbs, response, denied);
        case Some(ErrorResponse(denied)) => DenialReplies(cfg, cbs, response, denied);
      }
    } else {
      NothingElse(cfg, cbs);
    }
  }

  lemma {:induction false} EarlyForwards(cfg: Settings, cbs: seq<Callback>)
    requires cbs != [] && !Over(cfg, cbs[..|cbs| - 1])
    ensures !BringsOk(cfg, cbs) && (ForwardsNow(cfg, cbs) <==> HitsAllowed(cfg, cbs))
  {
    NothingYet(cfg, cbs[..|cbs| - 1]);
    OverSnoc(cfg, cbs);
    if TooLarge(cfg, cbs[|cbs| - 1]) {
      TooLargeIsRejected(cfg, cbs);
    } else if !EndsStream(cbs[|cbs| - 1]) {
      NothingYet(cfg, cbs);
    } else if IsInvalidation(cbs) {
      InvalidationOnlyReplies(cfg, cbs);
    } else {
      CheckForwards(cfg, cbs);
    }
  }

  lemma {:induction false} InvalidationOnlyReplies(cfg: Settings, cbs: seq<Callback>)
    requires Ends(cfg, cbs) && IsInvalidation(cbs)
    ensures OnlyReplies(RunFilter(cfg, cbs))
  {
    var mid := Concludes(cfg, cbs);
    InvalidateIs(cfg, mid);
  }

  lemma {:induction false} CheckForwards(cfg: Settings, cbs: seq<Callback>)
    requires Ends(cfg, cbs) && !IsInvalidation(cbs)
    ensures RunFilter(cfg, cbs).checks != []
    ensures (RunFilter(cfg, cbs).effects != [] && RunFilter(cfg, cbs).effects[0].effect.Forward?)
            <==> exists e :: Hit(cfg, cbs, RunFilter(cfg, cbs).checks[0].key, e) && e.allowed
  {
    RequestIsChecked(cfg, cbs);
    var key := RunFilter(cfg, cbs).checks[0].key;
    if e :| Hit(cfg, cbs, key, e) {
      HitIsReplayed(cfg, cbs, e);
    } else {
      MissIsAsked(cfg, cbs);
    }
  }
}
