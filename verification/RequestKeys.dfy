/** From the headers a client sends to what is hashed. */
module RequestKeys {
  import opened Wrappers
  import opened Ascii
  import opened Cache
  import opened CacheKey
  import opened Config
  import opened HeaderMap
  import opened Filter

  predicate SameExceptRequestId(a: seq<Header>, b: seq<Header>) {
    |a| == |b| && forall i :: 0 <= i < |a| ==>
      a[i].name == b[i].name && (a[i].value == b[i].value || EqIgnoreCase(a[i].name, "x-request-id"))
  }

  lemma NotPseudo(name: string)
    requires EqIgnoreCase(name, "x-request-id")
    ensures name !in {":method", ":path", ":authority", ":scheme"} && !StartsWith(name, ':')
  {
    assert |Lower(name)| == |name| && |Lower("x-request-id")| == 12;
    assert LowerChar(name[0]) == Lower(name)[0] == Lower("x-request-id")[0] == 'x';
  }

  lemma IdRead(q: Parts, r: Parts, h: Header)
    requires q.(requestId := "") == r.(requestId := "")
    ensures ParseOne(q, h).(requestId := "") == ParseOne(r, h).(requestId := "")
    ensures EqIgnoreCase(h.name, "x-request-id") ==> ParseOne(q, h).(requestId := "") == r.(requestId := "")
  {
    if EqIgnoreCase(h.name, "x-request-id") { NotPseudo(h.name); }
  }

  lemma {:induction false} RequestIdOnly(p: Parts, a: seq<Header>, b: seq<Header>)
    requires SameExceptRequestId(a, b)
    ensures ParseHeaders(p, a).(requestId := "") == ParseHeaders(p, b).(requestId := "")
  {
    if a != [] {
      var n := |a| - 1;
      RequestIdOnly(p, a[..n], b[..n]);
      IdRead(ParseHeaders(p, a[..n]), ParseHeaders(p, b[..n]), a[n]);
      if a[n] != b[n] { IdRead(ParseHeaders(p, b[..n]), ParseHeaders(p, b[..n]), b[n]); }
    }
  }

  lemma IdIsNotHashed(cfg: Settings, req: HttpRequest, id: string)
    ensures CacheKeyOf(cfg, req.(id := id)) == CacheKeyOf(cfg, req)
  {
    var order := OrderExists(req.headers);
    KeyIsWellDefined(cfg, req, order);
    KeyIsWellDefined(cfg, req.(id := id), order);
    assert InputOf(req, order, cfg.policy, cfg.bodyHash) == InputOf(req.(id := id), order, cfg.policy, cfg.bodyHash);
  }

  /** Under every policy, even an allowlist that names it, the value of `x-request-id` never changes
      the filter's cache key. */
  lemma {:induction false} RequestIdNeverMatters(cfg: Settings, p: Parts, a: seq<Header>, b: seq<Header>, body: seq<byte>)
    requires SameExceptRequestId(a, b)
    ensures CacheKeyOf(cfg, ToHttp(ParseHeaders(p, a), body)) == CacheKeyOf(cfg, ToHttp(ParseHeaders(p, b), body))
  {
    var x, y := ToHttp(ParseHeaders(p, a), body), ToHttp(ParseHeaders(p, b), body);
    RequestIdOnly(p, a, b);
    assert x.(id := "") == y.(id := "") by {
      assert ParseHeaders(p, a).headers == ParseHeaders(p, a).(requestId := "").headers;
    }
    IdIsNotHashed(cfg, x, "");
    IdIsNotHashed(cfg, y, "");
  }

  // --- ordinary headers ----------------------------------------------------------------------------

  function WithHeader(p: Parts, name: string, value: Option<string>): Parts {
    p.(headers := With(p.headers, Lower(name), value))
  }

  lemma OneMoreHeader(q: Parts, name: string, value: Option<string>, h: Header)
    requires !EqIgnoreCase(h.name, name)
    ensures ParseOne(WithHeader(q, name, value), h) == WithHeader(ParseOne(q, h), name, value)
  {
  }

  /** Of the headers of an ordinary name only the last value is kept, whatever else the list holds and
      in whatever order. */
  lemma {:induction false} LastHeaderWins(p: Parts, hs: seq<Header>, name: string)
    requires Ordinary(name)
    ensures ParseHeaders(p, hs) == WithHeader(ParseHeaders(p, Without(hs, name)), name, LastValue(hs, name))
  {
    if hs != [] {
      var init, last := hs[..|hs| - 1], hs[|hs| - 1];
      var rest := ParseHeaders(p, Without(init, name));
      LastHeaderWins(p, init, name);
      assert hs == init + [last];
      LastValueSnoc(init, last, name);
      WithoutSnoc(init, last, name);
      if EqIgnoreCase(last.name, name) {
        SameNameRead(rest, name, LastValue(init, name), last);
      } else {
        ParseSnoc(p, Without(init, name), last);
        OneMoreHeader(rest, name, LastValue(init, name), last);
      }
    }
  }

  lemma ParseSnoc(p: Parts, hs: seq<Header>, h: Header)
    ensures ParseHeaders(p, hs + [h]) == ParseOne(ParseHeaders(p, hs), h)
  {
    assert (hs + [h])[..|hs|] == hs;
  }

  lemma SameNameRead(q: Parts, name: string, value: Option<string>, h: Header)
    requires Ordinary(name) && EqIgnoreCase(h.name, name)
    ensures ParseOne(WithHeader(q, name, value), h) == WithHeader(q, name, Some(h.value))
  {
    SameNameOrdinary(h.name, name);
  }

  lemma SameNameOrdinary(a: string, b: string)
    requires EqIgnoreCase(a, b) && Ordinary(b)
    ensures Ordinary(a) && a !in {":method", ":path", ":authority", ":scheme"}
  {
    assert |Lower(a)| == |a| == |Lower(b)| == |b|;
    if a != "" {
      assert Lower(a)[0] == LowerChar(a[0]) && Lower(b)[0] == LowerChar(b[0]);
    }
  }

  lemma OtherNameRead(q: Parts, name: string, h: Header)
    requires Lower(name) !in q.headers && Lower(h.name) != Lower(name)
    ensures Lower(name) !in ParseOne(q, h).headers
  {
  }

  lemma {:induction false} NeverParsed(p: Parts, hs: seq<Header>, name: string)
    requires Lower(name) !in p.headers
    ensures Lower(name) !in ParseHeaders(p, Without(hs, name)).headers
  {
    if hs != [] {
      var init, last := hs[..|hs| - 1], hs[|hs| - 1];
      NeverParsed(p, init, name);
      assert hs == init + [last];
      WithoutSnoc(init, last, name);
      if !EqIgnoreCase(last.name, name) {
        ParseSnoc(p, Without(init, name), last);
        OtherNameRead(ParseHeaders(p, Without(init, name)), name, last);
      }
    }
  }

  /** Without its request identifiers a header list parses to the same parts, identifier aside. */
  lemma {:induction false} IdWithout(p: Parts, hs: seq<Header>, name: string)
    requires EqIgnoreCase(name, "x-request-id")
    ensures ParseHeaders(p, hs).(requestId := "") == ParseHeaders(p, Without(hs, name)).(requestId := "")
  {
    if hs != [] {
      var init, last := hs[..|hs| - 1], hs[|hs| - 1];
      IdWithout(p, init, name);
      assert hs == init + [last];
      WithoutSnoc(init, last, name);
      IdRead(ParseHeaders(p, init), ParseHeaders(p, Without(init, name)), last);
      if !EqIgnoreCase(last.name, name) { ParseSnoc(p, Without(init, name), last); }
    }
  }

  /** Two header lists that agree on everything but the headers called `name`. */
  predicate DifferOnlyIn(a: seq<Header>, b: seq<Header>, name: string) {
    Without(a, name) == Without(b, name)
  }

  /** What the two parses have in common, and when their headers are collected alike. */
  lemma {:induction false} PartsMatterIff(policy: HeaderPolicy, p: Parts, a: seq<Header>, b: seq<Header>, name: string)
    requires !StartsWith(name, ':') && DifferOnlyIn(a, b, name) && Lower(name) !in p.headers
    ensures var x, y := ParseHeaders(p, a), ParseHeaders(p, b);
            && x.(headers := map[], requestId := "") == y.(headers := map[], requestId := "")
            && (SameHeaders(x.headers, y.headers, policy)
                <==> EqIgnoreCase(name, "x-request-id") || !IncludeHeader(Lower(name), policy)
                     || LastValue(a, name) == LastValue(b, name))
  {
    if EqIgnoreCase(name, "x-request-id") {
      IdWithout(p, a, name);
      IdWithout(p, b, name);
      assert ParseHeaders(p, a).headers == ParseHeaders(p, a).(requestId := "").headers;
      assert ParseHeaders(p, b).headers == ParseHeaders(p, b).(requestId := "").headers;
    } else {
      LastHeaderWins(p, a, name);
      LastHeaderWins(p, b, name);
      NeverParsed(p, a, name);
      LowerIdempotent(name);
      SameHeadersIff(ParseHeaders(p, Without(a, name)).headers, Lower(name), LastValue(a, name), LastValue(b, name), policy);
    }
  }

  /** Adding, removing, repeating or changing headers of one name changes what is hashed exactly when the
      configured mode and names, in any capitalisation, select that name, it is not `x-request-id`,
      and the last value of the name is not the same before and after. */
  lemma {:induction false} HeaderMattersIffSelected(policy: HeaderPolicy, mode: string, names: seq<string>, bodyHash: seq<byte> -> u64,
                                 p: Parts, a: seq<Header>, b: seq<Header>, name: string, body: seq<byte>,
                                 orderA: seq<string>, orderB: seq<string>)
    requires IncludeHeader(Lower(name), policy) <==> Selects(mode, names, name)
    requires !StartsWith(name, ':') && DifferOnlyIn(a, b, name) && Lower(name) !in p.headers
    requires IsOrder(ParseHeaders(p, a).headers, orderA) && IsOrder(ParseHeaders(p, b).headers, orderB)
    ensures Feed(InputOf(ToHttp(ParseHeaders(p, a), body), orderA, policy, bodyHash))
            != Feed(InputOf(ToHttp(ParseHeaders(p, b), body), orderB, policy, bodyHash))
            <==> Selects(mode, names, name) && !EqIgnoreCase(name, "x-request-id") && LastValue(a, name) != LastValue(b, name)
  {
    var x, y := ParseHeaders(p, a), ParseHeaders(p, b);
    PartsMatterIff(policy, p, a, b, name);
    RestAgrees(x, y, body, bodyHash);
    FedAlikeIff(ToHttp(x, body), orderA, ToHttp(y, body), orderB, policy, bodyHash);
  }

  lemma RestAgrees(x: Parts, y: Parts, body: seq<byte>, bodyHash: seq<byte> -> u64)
    requires x.(headers := map[], requestId := "") == y.(headers := map[], requestId := "")
    ensures SameFields(ToHttp(x, body), ToHttp(y, body), bodyHash)
  {
    var z := x.(headers := map[], requestId := "");
    assert z.verb == x.verb && z.path == x.path && z.host == x.host && z.scheme == x.scheme && z.query == x.query;
  }

  /** The policy made from the configuration is one for which `HeaderMattersIffSelected` holds: the
      configuration decides which headers of the client reach the hasher. */
  method ConfiguredPolicy(mode: string, names: seq<string>, bodyHash: seq<byte> -> u64, a: seq<Header>, b: seq<Header>,
                          name: string, body: seq<byte>, orderA: seq<string>, orderB: seq<string>)
    returns (r: Result<HeaderPolicy, string>)
    requires !StartsWith(name, ':') && DifferOnlyIn(a, b, name)
    requires IsOrder(ParseHeaders(NO_PARTS, a).headers, orderA) && IsOrder(ParseHeaders(NO_PARTS, b).headers, orderB)
    ensures r.Err? <==> "" in Normals(names) || mode !in {"all_except_request_id", "allowlist", "denylist"}
    ensures r.Ok? ==>
              (Feed(InputOf(ToHttp(ParseHeaders(NO_PARTS, a), body), orderA, r.value, bodyHash))
               != Feed(InputOf(ToHttp(ParseHeaders(NO_PARTS, b), body), orderB, r.value, bodyHash))
               <==> Selects(mode, names, name) && !EqIgnoreCase(name, "x-request-id") && LastValue(a, name) != LastValue(b, name))
  {
    r := CacheHeaderPolicy(mode, names);
    if r.Ok? {
      HeaderMattersIffSelected(r.value, mode, names, bodyHash, NO_PARTS, a, b, name, body, orderA, orderB);
    }
  }
}
