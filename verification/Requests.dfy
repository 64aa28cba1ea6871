/** What a request is, read off the host's callbacks alone. */
module Requests {
  import opened Wrappers
  import opened Ascii
  import opened CacheKey
  import opened HeaderMap
  import opened Filter
  import opened FilterTheorems
  import RequestKeys

  // --- the raw material ------------------------------------------------------------------------------

  /** All headers that the host has listed, in order, and those it listed last. */
  function AllHeaders(cbs: seq<Callback>): seq<Header> {
    if cbs == [] then []
    else if cbs[|cbs| - 1].OnHeaders? then AllHeaders(cbs[..|cbs| - 1]) + cbs[|cbs| - 1].headers
    else AllHeaders(cbs[..|cbs| - 1])
  }

  function LastHeaders(cbs: seq<Callback>): seq<Header> {
    if cbs == [] then []
    else if cbs[|cbs| - 1].OnHeaders? then cbs[|cbs| - 1].headers
    else LastHeaders(cbs[..|cbs| - 1])
  }

  /** The body bytes received, and the size reported last. */
  function BodyOf(cbs: seq<Callback>): (seq<byte>, nat) {
    if cbs == [] then ([], 0)
    else
      var before, last := BodyOf(cbs[..|cbs| - 1]), cbs[|cbs| - 1];
      if last.OnBody? && last.bodySize > before.1
      then (if last.chunk.Some? then before.0 + last.chunk.value else before.0, last.bodySize)
      else before
  }

  /** The length that a header declares; the filter runs on a 32-bit machine. */
  function Length(h: Header): Option<nat> {
    if Lower(h.name) == "content-length" then ParseUint(h.value, 10, 0xFFFF_FFFF) else None
  }

  /** Header `i` is the last to declare a length, and it is more than `max`. */
  ghost predicate Declares(hs: seq<Header>, i: int, max: nat) {
    && 0 <= i < |hs| && Length(hs[i]).Some? && Length(hs[i]).value > max
    && forall j :: i < j < |hs| ==> Length(hs[j]).None?
  }

  /** The last length declared is over the limit, or the body is. */
  ghost predicate TooLarge(cfg: Settings, cb: Callback) {
    match cb
    case OnHeaders(hs, _, _) => exists i :: Declares(hs, i, cfg.maxBody)
    case OnBody(size, _, _, _) => size > cfg.maxBody
    case OnGrpc(_, _, _) => false
  }

  /** The request is over: its stream has ended, or it was too large. */
  ghost predicate Over(cfg: Settings, cbs: seq<Callback>) {
    exists i :: 0 <= i < |cbs| && (EndsStream(cbs[i]) || TooLarge(cfg, cbs[i]))
  }

  /** The callbacks up to the one that the request was over with; all of them if it is not over. */
  ghost function Own(cfg: Settings, cbs: seq<Callback>): seq<Callback> {
    if cbs != [] && Over(cfg, cbs[..|cbs| - 1]) then Own(cfg, cbs[..|cbs| - 1]) else cbs
  }

  /** The last callback completes the request. */
  ghost predicate Ends(cfg: Settings, cbs: seq<Callback>) {
    && cbs != [] && !Over(cfg, cbs[..|cbs| - 1])
    && EndsStream(cbs[|cbs| - 1]) && !TooLarge(cfg, cbs[|cbs| - 1])
  }

  // --- what it says ----------------------------------------------------------------------------------

  function OrEmpty(o: Option<string>): string {
    if o.Some? then o.value else ""
  }

  /** `v` is `p`, a question mark, which is the first, and `q`. */
  predicate Splits(v: string, p: string, q: string) {
    v == p + "?" + q && '?' !in p
  }

  /** The last `:path` that has a query. */
  function LastQueried(hs: seq<Header>): Option<string> {
    if hs == [] then None
    else if hs[|hs| - 1].name == ":path" && '?' in hs[|hs| - 1].value then Some(hs[|hs| - 1].value)
    else LastQueried(hs[..|hs| - 1])
  }

  ghost predicate PathIs(hs: seq<Header>, path: string, query: string) {
    && (match LastNamed(hs, ":path")
        case None => path == ""
        case Some(v) => ('?' !in v ==> path == v) && forall p, q :: Splits(v, p, q) ==> path == p)
    && (match LastQueried(hs)
        case None => query == ""
        case Some(v) => forall p, q :: Splits(v, p, q) ==> query == q)
  }

  /** The map holds under `n` what the list says. */
  ghost predicate HeaderIs(hs: seq<Header>, headers: map<string, string>, n: string) {
    match LastValue(hs, n)
    case None => Lower(n) !in headers
    case Some(v) => Lower(n) in headers && headers[Lower(n)] == v
  }

  /** `headers` holds the last value of each ordinary name, in lower case, and nothing else. */
  ghost predicate HeadersAre(hs: seq<Header>, headers: map<string, string>) {
    && (forall n :: Ordinary(n) ==> HeaderIs(hs, headers, n))
    && (forall k :: k in headers ==> Ordinary(k) && Lower(k) == k)
  }

  ghost predicate RequestIs(req: HttpRequest, cbs: seq<Callback>) {
    var all, latest := AllHeaders(cbs), LastHeaders(cbs);
    && req.verb == OrEmpty(LastNamed(all, ":method"))
    && req.host == OrEmpty(LastNamed(all, ":authority"))
    && req.scheme == OrEmpty(LastNamed(all, ":scheme"))
    && req.id == OrEmpty(LastValue(all, "x-request-id"))
    && PathIs(all, req.path, req.query) && HeadersAre(latest, req.headers)
    && req.rawBody == BodyOf(cbs).0 && req.size == |BodyOf(cbs).0|
  }

  /** A POST to the invalidation path, with or without a query. */
  ghost predicate IsInvalidation(cbs: seq<Callback>) {
    var verb, path := LastNamed(AllHeaders(cbs), ":method"), LastNamed(AllHeaders(cbs), ":path");
    verb == Some("POST") && path.Some? && NamesInvalidation(path.value)
  }

  ghost predicate NamesInvalidation(path: string) {
    path == "/_cextauthz/cache/invalidate" || exists q :: Splits(path, "/_cextauthz/cache/invalidate", q)
  }

  /** A secret is configured, and it is the last value of the secret header. */
  predicate KnowsSecret(cfg: Settings, cbs: seq<Callback>) {
    cfg.secret != "" && LastValue(LastHeaders(cbs), "x-cextauthz-invalidation-secret") == Some(cfg.secret)
  }

  /** The body asks for purge `r`: version 1, and for the purge of a key, a key with the cache's prefix. */
  predicate AsksFor(cfg: Settings, cbs: seq<Callback>, r: InvalidationRequest) {
    && cfg.parseJson(BodyOf(cbs).0) == Some(r) && r.version == 1
    && (r.op.PurgeKey? ==> r.key.Some? && |r.key.value| >= 6 && r.key.value[..6] == "cache:")
  }

  // --- the filter reads it so --------------------------------------------------------------------------

  /** The parts collected are those of `all` headers listed, the ordinary ones those of the `latest`. */
  ghost predicate ReadsAs(p: Parts, all: seq<Header>, latest: seq<Header>) {
    && p.verb == OrEmpty(LastNamed(all, ":method"))
    && p.host == OrEmpty(LastNamed(all, ":authority"))
    && p.scheme == OrEmpty(LastNamed(all, ":scheme"))
    && p.requestId == OrEmpty(LastValue(all, "x-request-id"))
    && PathIs(all, p.path, p.query) && HeadersAre(latest, p.headers)
  }

  lemma SplitHead(v: string, p: string, q: string)
    requires Splits(v, p, q)
    ensures v != [] && (p == [] <==> v[0] == '?')
    ensures if p == [] then q == v[1..] else p[0] == v[0] && Splits(v[1..], p[1..], q)
  {
    if p != [] {
      assert p[0] in p;
      assert v[1..] == p[1..] + "?" + q;
    }
  }

  lemma SplitCons(c: char, v: string, p: string, q: string)
    requires c != '?' && Splits(v, p, q)
    ensures Splits([c] + v, [c] + p, q)
  {
    assert [c] + v == [c] + p + "?" + q;
  }

  lemma {:induction false} SplitsThere(v: string)
    ensures QueryMark(v) < |v| <==> '?' in v
    ensures QueryMark(v) < |v| ==> Splits(v, v[..QueryMark(v)], v[QueryMark(v) + 1..])
  {
    if v != [] && v[0] != '?' {
      var tail := v[1..];
      SplitsThere(tail);
      assert v == [v[0]] + tail;
      var n := QueryMark(tail);
      if n < |tail| {
        SplitCons(v[0], tail, tail[..n], tail[n + 1..]);
        assert v[..n + 1] == [v[0]] + tail[..n] && v[n + 2..] == tail[n + 1..];
      }
    } else if v != [] {
      assert v == "" + "?" + v[1..];
    }
  }

  lemma {:induction false} SplitsOnlyThere(v: string, p: string, q: string)
    requires Splits(v, p, q)
    ensures QueryMark(v) < |v| && p == v[..QueryMark(v)] && q == v[QueryMark(v) + 1..]
  {
    SplitHead(v, p, q);
    if p != [] {
      SplitsOnlyThere(v[1..], p[1..], q);
      assert p == [p[0]] + p[1..] && v == [v[0]] + v[1..];
    }
  }

  lemma {:induction false} QueryMarkIs(v: string)
    ensures QueryMark(v) < |v| <==> '?' in v
    ensures forall p, q :: Splits(v, p, q) ==> QueryMark(v) < |v| && p == v[..QueryMark(v)] && q == v[QueryMark(v) + 1..]
  {
    SplitsThere(v);
    forall p, q | Splits(v, p, q) ensures QueryMark(v) < |v| && p == v[..QueryMark(v)] && q == v[QueryMark(v) + 1..] {
      SplitsOnlyThere(v, p, q);
    }
  }

  lemma LastNamedSnoc(hs: seq<Header>, h: Header, name: string)
    ensures LastNamed(hs + [h], name) == if h.name == name then Some(h.value) else LastNamed(hs, name)
    ensures LastValue(hs + [h], name) == if EqIgnoreCase(h.name, name) then Some(h.value) else LastValue(hs, name)
    ensures LastQueried(hs + [h]) == if h.name == ":path" && '?' in h.value then Some(h.value) else LastQueried(hs)
  {
    assert (hs + [h])[..|hs|] == hs;
    LastValueSnoc(hs, h, name);
  }

  lemma PathRead(p: Parts, all: seq<Header>, h: Header)
    requires PathIs(all, p.path, p.query)
    ensures PathIs(all + [h], ParseOne(p, h).path, ParseOne(p, h).query)
  {
    LastNamedSnoc(all, h, ":path");
    QueryMarkIs(h.value);
  }

  lemma HeaderRead(p: Parts, latest: seq<Header>, h: Header, n: string)
    requires Ordinary(n) && HeaderIs(latest, p.headers, n)
    ensures HeaderIs(latest + [h], ParseOne(p, h).headers, n)
  {
    LastNamedSnoc(latest, h, n);
    if EqIgnoreCase(h.name, n) { RequestKeys.SameNameOrdinary(h.name, n); }
  }

  lemma KeysRead(p: Parts, h: Header)
    requires forall k :: k in p.headers ==> Ordinary(k) && Lower(k) == k
    ensures forall k :: k in ParseOne(p, h).headers ==> Ordinary(k) && Lower(k) == k
  {
    LowerIdempotent(h.name);
    if Ordinary(h.name) && h.name != "" { assert Lower(h.name)[0] == LowerChar(h.name[0]); }
  }

  lemma HeadersRead(p: Parts, latest: seq<Header>, h: Header)
    requires HeadersAre(latest, p.headers)
    ensures HeadersAre(latest + [h], ParseOne(p, h).headers)
  {
    forall n | Ordinary(n) ensures HeaderIs(latest + [h], ParseOne(p, h).headers, n) {
      HeaderRead(p, latest, h, n);
    }
    KeysRead(p, h);
  }

  lemma PseudoIsNoId(name: string)
    requires StartsWith(name, ':')
    ensures !EqIgnoreCase(name, "x-request-id")
  {
    assert Lower(name)[0] == ':' && Lower("x-request-id")[0] == 'x';
  }

  lemma FieldsRead(p: Parts, all: seq<Header>, h: Header)
    requires p.verb == OrEmpty(LastNamed(all, ":method")) && p.host == OrEmpty(LastNamed(all, ":authority"))
    requires p.scheme == OrEmpty(LastNamed(all, ":scheme")) && p.requestId == OrEmpty(LastValue(all, "x-request-id"))
    ensures var n := ParseOne(p, h);
            && n.verb == OrEmpty(LastNamed(all + [h], ":method")) && n.host == OrEmpty(LastNamed(all + [h], ":authority"))
            && n.scheme == OrEmpty(LastNamed(all + [h], ":scheme"))
            && n.requestId == OrEmpty(LastValue(all + [h], "x-request-id"))
  {
    LastNamedSnoc(all, h, ":method");
    LastNamedSnoc(all, h, ":authority");
    LastNamedSnoc(all, h, ":scheme");
    LastNamedSnoc(all, h, "x-request-id");
    if StartsWith(h.name, ':') { PseudoIsNoId(h.name); }
  }

  lemma {:induction false} ReadsAll(p: Parts, all: seq<Header>, hs: seq<Header>)
    requires ReadsAs(p, all, [])
    ensures ReadsAs(ParseHeaders(p, hs), all + hs, hs)
  {
    if hs == [] {
      assert all + hs == all;
    } else {
      var init, last := hs[..|hs| - 1], hs[|hs| - 1];
      ReadsAll(p, all, init);
      var q := ParseHeaders(p, init);
      FieldsRead(q, all + init, last);
      PathRead(q, all + init, last);
      HeadersRead(q, init, last);
      assert all + init + [last] == all + hs && init + [last] == hs;
    }
  }

  /** One more list of headers: pseudo-headers and the identifier are kept unless given again, the others
      start afresh. */
  lemma {:induction false} ReadsMore(p: Parts, all: seq<Header>, latest: seq<Header>, hs: seq<Header>)
    requires ReadsAs(p, all, latest)
    ensures ReadsAs(ParseHeaders(p.(headers := map[]), hs), all + hs, hs)
  {
    assert HeadersAre([], map[]);
    ReadsAll(p.(headers := map[]), all, hs);
  }

  lemma DeclaresSnoc(hs: seq<Header>, i: int, max: nat)
    requires hs != [] && i != |hs| - 1
    ensures Declares(hs, i, max) <==> Declares(hs[..|hs| - 1], i, max) && Length(hs[|hs| - 1]).None?
  {
    var init := hs[..|hs| - 1];
    if 0 <= i < |init| {
      assert init[i] == hs[i];
      assert forall j :: i < j < |init| ==> init[j] == hs[j];
      assert Declares(hs, i, max) ==> Length(hs[|hs| - 1]).None?;
    }
  }

  lemma {:induction false} LengthIs(hs: seq<Header>, max: nat)
    ensures (ContentLength(hs).Some? && ContentLength(hs).value > max) <==> exists i :: Declares(hs, i, max)
  {
    if hs != [] {
      var init, last := hs[..|hs| - 1], hs[|hs| - 1];
      LengthIs(init, max);
      assert Lower("content-length") == "content-length";
      assert Declares(hs, |init|, max) <==> Length(last).Some? && Length(last).value > max;
      forall i | i != |init| ensures Declares(hs, i, max) <==> Declares(init, i, max) && Length(last).None? {
        DeclaresSnoc(hs, i, max);
      }
    }
  }
}
