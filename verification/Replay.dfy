/** Decisions stored in the cache and replayed from it. */
module Replay {
  import opened Wrappers
  import opened Ascii
  import opened Cache
  import opened Decision
  import opened HeaderMap

  /** What the client or the upstream sees. */
  datatype Effect =
    | Forward(headers: seq<Header>)
    | Reply(status: nat, replyHeaders: seq<(string, string)>, body: Option<string>)

  function ToCached(m: Mutation): CachedMutation {
    match m
    case AppendIfExistsOrAdd(name, value) => CachedMutation(name, value, 0)
    case AddIfAbsent(name, value) => CachedMutation(name, value, 1)
    case OverwriteIfExistsOrAdd(name, value) => CachedMutation(name, value, 2)
    case OverwriteIfExists(name, value) => CachedMutation(name, value, 3)
    case Remove(name) => CachedMutation(name, "", 4)
  }

  function FromCached(c: CachedMutation): Option<Mutation> {
    if c.action == 0 then Some(AppendIfExistsOrAdd(c.name, c.value))
    else if c.action == 1 then Some(AddIfAbsent(c.name, c.value))
    else if c.action == 2 then Some(OverwriteIfExistsOrAdd(c.name, c.value))
    else if c.action == 3 then Some(OverwriteIfExists(c.name, c.value))
    else if c.action == 4 then Some(Remove(c.name))
    else None
  }

  function ToCachedAll(ms: seq<Mutation>): seq<CachedMutation> {
    if ms == [] then [] else [ToCached(ms[0])] + ToCachedAll(ms[1..])
  }

  /** Mutations with an unknown action number are dropped. */
  function FromCachedAll(cs: seq<CachedMutation>): seq<Mutation> {
    if cs == [] then [] else
      match FromCached(cs[0])
      case None => FromCachedAll(cs[1..])
      case Some(m) => [m] + FromCachedAll(cs[1..])
  }

  function ToCachedHeaders(hs: seq<(string, string)>): seq<CachedHeader> {
    if hs == [] then [] else [CachedHeader(hs[0].0, hs[0].1)] + ToCachedHeaders(hs[1..])
  }

  function FromCachedHeaders(hs: seq<CachedHeader>): seq<(string, string)> {
    if hs == [] then [] else [(hs[0].name, hs[0].value)] + FromCachedHeaders(hs[1..])
  }

  function EntryFor(d: AuthorizationDecision, expiresAtMs: u64): CacheEntry {
    match d
    case Allow(mutations) => CacheEntry(expiresAtMs, true, 0, "", [], ToCachedAll(mutations))
    case Deny(status, body, headers) => CacheEntry(expiresAtMs, false, status, body, ToCachedHeaders(headers), [])
  }

  predicate HasContentType(hs: seq<(string, string)>) {
    hs != [] && (EqIgnoreCase(hs[0].0, "content-type") || HasContentType(hs[1..]))
  }

  function LocalReplyHeaders(hs: seq<(string, string)>): seq<(string, string)> {
    (if HasContentType(hs) then [] else [("content-type", "text/plain")]) + hs
  }

  /** A local reply without a content type gets `text/plain` in front; any other keeps its headers. */
  lemma {:induction false} LocalReplyHeadersAre(hs: seq<(string, string)>)
    ensures if exists i :: 0 <= i < |hs| && Lower(hs[i].0) == "content-type" then LocalReplyHeaders(hs) == hs
            else LocalReplyHeaders(hs) == [("content-type", "text/plain")] + hs
  {
    ContentTypeIff(hs);
    assert [] + hs == hs;
    assert Lower("content-type") == "content-type";
  }

  lemma {:induction false} ContentTypeIff(hs: seq<(string, string)>)
    ensures HasContentType(hs) <==> exists i :: 0 <= i < |hs| && EqIgnoreCase(hs[i].0, "content-type")
  {
    if hs != [] {
      ContentTypeIff(hs[1..]);
      if i :| 0 <= i < |hs[1..]| && EqIgnoreCase(hs[1..][i].0, "content-type") {
        assert EqIgnoreCase(hs[i + 1].0, "content-type");
      }
      if i :| 0 <= i < |hs| && EqIgnoreCase(hs[i].0, "content-type") {
        assert i > 0 ==> hs[1..][i - 1] == hs[i];
      }
    }
  }

  /** What a live answer does to a request with headers `h`. */
  function LiveEffect(d: AuthorizationDecision, h: seq<Header>): Effect {
    match d
    case Allow(mutations) => Forward(ApplyAll(h, mutations))
    case Deny(status, body, headers) => Reply(status, LocalReplyHeaders(headers), Some(body))
  }

  /** What a cache hit does to the same request. */
  function ReplayEffect(e: CacheEntry, h: seq<Header>): Effect {
    if e.allowed then Forward(ApplyAll(h, FromCachedAll(e.requestHeaderMutations)))
    else Reply(e.deniedStatus, LocalReplyHeaders(FromCachedHeaders(e.responseHeaders)),
               Some(if e.deniedBody == "" then "Forbidden" else e.deniedBody))
  }

  lemma {:induction false} MutationsRoundTrip(ms: seq<Mutation>)
    ensures FromCachedAll(ToCachedAll(ms)) == ms
  {
    if ms != [] { MutationsRoundTrip(ms[1..]); }
  }

  lemma {:induction false} HeadersRoundTrip(hs: seq<(string, string)>)
    ensures FromCachedHeaders(ToCachedHeaders(hs)) == hs
  {
    if hs != [] { HeadersRoundTrip(hs[1..]); }
  }

  /** Replaying a stored decision equals applying it live, except for a denial without a body, which
      the replay gives the body "Forbidden". */
  lemma ReplayEqualsLiveIff(d: AuthorizationDecision, expiresAtMs: u64, h: seq<Header>)
    ensures ReplayEffect(EntryFor(d, expiresAtMs), h) == LiveEffect(d, h) <==> !(d.Deny? && d.body == "")
  {
    match d
    case Allow(mutations) => MutationsRoundTrip(mutations);
    case Deny(status, body, headers) => HeadersRoundTrip(headers);
  }

  /** No answer of the authorization service gives such a denial, so a hit on a stored answer is
      indistinguishable from asking again and getting the same answer. */
  lemma AnswersReplayAsLive(response: CheckResponse, expiresAtMs: u64, h: seq<Header>)
    ensures ReplayEffect(EntryFor(FromCheckResponse(response), expiresAtMs), h)
            == LiveEffect(FromCheckResponse(response), h)
  {
    DecisionShape(response);
    ReplayEqualsLiveIff(FromCheckResponse(response), expiresAtMs, h);
  }
}
