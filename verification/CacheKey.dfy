/** How a check request becomes a cache key, and a cache key a shard. */
module CacheKey {
  import opened Wrappers
  import opened Ordering
  import opened Ascii
  import opened Cache

  type byte = x: int | 0 <= x < 256

  datatype HeaderPolicy = AllExceptRequestId | Allowlist(names: seq<string>) | Denylist(names: seq<string>)

  /** The fields of the ext_authz request that this filter fills in; the text form of the body is
      not part of this model. */
  datatype HttpRequest = HttpRequest(
    id: string,
    verb: string,
    headers: map<string, string>,
    path: string,
    host: string,
    scheme: string,
    query: string,
    size: int,
    rawBody: seq<byte>)

  /** `http` is absent when any message on the way to it is. */
  datatype CheckRequest = CheckRequest(http: Option<HttpRequest>)

  datatype KeyInput = KeyInput(
    verb: string,
    path: string,
    host: string,
    scheme: string,
    query: string,
    headers: seq<(string, string)>,
    bodyFingerprint: u64)

  predicate IncludeHeader(name: string, policy: HeaderPolicy) {
    match policy
    case AllExceptRequestId => !EqIgnoreCase(name, "x-request-id")
    case Allowlist(names) => name in names
    case Denylist(names) => !EqIgnoreCase(name, "x-request-id") && name !in names
  }

  // --- the header part of the key ------------------------------------------------------------------

  /** `order` lists the keys of `m`, each once: one way a hash map may be iterated. */
  ghost predicate IsOrder(m: map<string, string>, order: seq<string>) {
    Within(m, order) && multiset(order) == multiset(m.Keys)
  }

  ghost predicate Within(m: map<string, string>, order: seq<string>) {
    forall k :: k in order ==> k in m
  }

  function Pick(m: map<string, string>, k: string, policy: HeaderPolicy): seq<(string, string)>
    requires k in m
  {
    if IncludeHeader(Lower(k), policy) then [(Lower(k), m[k])] else []
  }

  ghost function Pairs(m: map<string, string>, order: seq<string>, policy: HeaderPolicy): seq<(string, string)>
    requires Within(m, order)
  {
    if order == [] then []
    else Pairs(m, order[..|order| - 1], policy) + Pick(m, order[|order| - 1], policy)
  }

  /** The headers among `keys` that contribute exactly the pair `p`. */
  ghost function Sources(m: map<string, string>, keys: set<string>, policy: HeaderPolicy, p: (string, string)): set<string> {
    set k | k in keys && k in m && IncludeHeader(Lower(k), policy) && (Lower(k), m[k]) == p
  }

  lemma LastOfOrder(order: seq<string>, keys: set<string>)
    requires order != [] && multiset(order) == multiset(keys)
    ensures var k := order[|order| - 1];
            k in keys && multiset(order[..|order| - 1]) == multiset(keys - {k})
  {
    var k, init := order[|order| - 1], order[..|order| - 1];
    assert order == init + [k];
    assert k in multiset(keys);
    forall x ensures multiset(init)[x] == multiset(keys - {k})[x] {
      assert multiset(keys)[x] == multiset(init)[x] + multiset{k}[x];
    }
  }

  lemma SourcesStep(m: map<string, string>, keys: set<string>, k: string, policy: HeaderPolicy, p: (string, string))
    requires k in keys && k in m
    ensures |Sources(m, keys, policy, p)| == |Sources(m, keys - {k}, policy, p)| + multiset(Pick(m, k, policy))[p]
  {
    var before := Sources(m, keys - {k}, policy, p);
    if IncludeHeader(Lower(k), policy) && (Lower(k), m[k]) == p {
      assert Sources(m, keys, policy, p) == before + {k};
    } else {
      assert Sources(m, keys, policy, p) == before;
    }
  }

  lemma {:induction false} PairsCount(m: map<string, string>, order: seq<string>, keys: set<string>, policy: HeaderPolicy, p: (string, string))
    requires Within(m, order) && multiset(order) == multiset(keys)
    ensures multiset(Pairs(m, order, policy))[p] == |Sources(m, keys, policy, p)|
  {
    if order == [] {
      assert forall k :: k in keys ==> multiset(keys)[k] == 1;
      assert keys == {};
    } else {
      var k := order[|order| - 1];
      LastOfOrder(order, keys);
      PairsCount(m, order[..|order| - 1], keys - {k}, policy, p);
      SourcesStep(m, keys, k, policy, p);
    }
  }

  // --- what the hasher is fed ------------------------------------------------------------------------

  /** One write to the hasher: a character of a string, the 0xff that ends a string, or a word. */
  datatype Atom = Ch(c: char) | StrEnd | Word(n: nat)

  function FeedStr(s: string): seq<Atom> {
    if s == [] then [StrEnd] else [Ch(s[0])] + FeedStr(s[1..])
  }

  function FeedPairs(ps: seq<(string, string)>): seq<Atom> {
    if ps == [] then [] else FeedStr(ps[0].0) + (FeedStr(ps[0].1) + FeedPairs(ps[1..]))
  }

  /** The derived `Hash` of the key input: each string with its end mark, the header count, the
      headers, and the body fingerprint. */
  function Feed(input: KeyInput): seq<Atom> {
    FeedStr(input.verb) + (FeedStr(input.path) + (FeedStr(input.host) + (FeedStr(input.scheme) + (FeedStr(input.query)
      + ([Word(|input.headers|)] + (FeedPairs(input.headers) + [Word(input.bodyFingerprint)]))))))
  }

  lemma {:induction false} StrPrefixFree(a: string, x: seq<Atom>, b: string, y: seq<Atom>)
    requires FeedStr(a) + x == FeedStr(b) + y
    ensures a == b && x == y
  {
    var l, r := FeedStr(a) + x, FeedStr(b) + y;
    assert l[0] == r[0];
    if a == [] || b == [] {
      assert a == [] && b == [];
      assert l[1..] == x && r[1..] == y;
    } else {
      assert l[1..] == FeedStr(a[1..]) + x;
      assert r[1..] == FeedStr(b[1..]) + y;
      StrPrefixFree(a[1..], x, b[1..], y);
      assert a == [a[0]] + a[1..] && b == [b[0]] + b[1..];
    }
  }

  lemma PairsUnfold(ps: seq<(string, string)>, x: seq<Atom>)
    requires ps != []
    ensures FeedPairs(ps) + x == FeedStr(ps[0].0) + (FeedStr(ps[0].1) + (FeedPairs(ps[1..]) + x))
  {
  }

  lemma {:induction false} PairsPrefixFree(ps: seq<(string, string)>, x: seq<Atom>, qs: seq<(string, string)>, y: seq<Atom>)
    requires |ps| == |qs| && FeedPairs(ps) + x == FeedPairs(qs) + y
    ensures ps == qs && x == y
  {
    if ps == [] {
      assert x == FeedPairs(ps) + x && y == FeedPairs(qs) + y;
    } else {
      PairsUnfold(ps, x);
      PairsUnfold(qs, y);
      var p1, q1 := FeedPairs(ps[1..]) + x, FeedPairs(qs[1..]) + y;
      StrPrefixFree(ps[0].0, FeedStr(ps[0].1) + p1, qs[0].0, FeedStr(qs[0].1) + q1);
      StrPrefixFree(ps[0].1, p1, qs[0].1, q1);
      PairsPrefixFree(ps[1..], x, qs[1..], y);
      assert ps == [ps[0]] + ps[1..] && qs == [qs[0]] + qs[1..];
    }
  }

  /** The hasher input determines the key input: no two different inputs are fed alike. */
  lemma FeedInjective(a: KeyInput, b: KeyInput)
    requires Feed(a) == Feed(b)
    ensures a == b
  {
    var a5 := [Word(|a.headers|)] + (FeedPairs(a.headers) + [Word(a.bodyFingerprint)]);
    var b5 := [Word(|b.headers|)] + (FeedPairs(b.headers) + [Word(b.bodyFingerprint)]);
    var a4, b4 := FeedStr(a.query) + a5, FeedStr(b.query) + b5;
    var a3, b3 := FeedStr(a.scheme) + a4, FeedStr(b.scheme) + b4;
    var a2, b2 := FeedStr(a.host) + a3, FeedStr(b.host) + b3;
    StrPrefixFree(a.verb, FeedStr(a.path) + a2, b.verb, FeedStr(b.path) + b2);
    StrPrefixFree(a.path, a2, b.path, b2);
    StrPrefixFree(a.host, a3, b.host, b3);
    StrPrefixFree(a.scheme, a4, b.scheme, b4);
    StrPrefixFree(a.query, a5, b.query, b5);
    assert a5[0] == b5[0];
    assert a5[1..] == FeedPairs(a.headers) + [Word(a.bodyFingerprint)];
    assert b5[1..] == FeedPairs(b.headers) + [Word(b.bodyFingerprint)];
    PairsPrefixFree(a.headers, [Word(a.bodyFingerprint)], b.headers, [Word(b.bodyFingerprint)]);
    assert [Word(a.bodyFingerprint)][0] == [Word(b.bodyFingerprint)][0];
  }

  // --- the key -------------------------------------------------------------------------------------

  /** The key input when the header map is iterated in `order`. */
  ghost function InputOf(req: HttpRequest, order: seq<string>, policy: HeaderPolicy, bodyHash: seq<byte> -> u64): KeyInput
    requires Within(req.headers, order)
  {
    KeyInput(req.verb, req.path, req.host, req.scheme, req.query,
             Sort(Pairs(req.headers, order, policy), PairLe), bodyHash(req.rawBody))
  }

  ghost predicate SameFields(a: HttpRequest, b: HttpRequest, bodyHash: seq<byte> -> u64) {
    a.verb == b.verb && a.path == b.path && a.host == b.host && a.scheme == b.scheme
    && a.query == b.query && bodyHash(a.rawBody) == bodyHash(b.rawBody)
  }

  /** The included, lowercased headers agree as multisets: each pair comes from equally many headers. */
  ghost predicate SameHeaders(a: map<string, string>, b: map<string, string>, policy: HeaderPolicy) {
    forall p :: |Sources(a, a.Keys, policy, p)| == |Sources(b, b.Keys, policy, p)|
  }

  /** One normal form per class of requests, whatever the iteration orders. */
  lemma FedAlikeIff(a: HttpRequest, orderA: seq<string>, b: HttpRequest, orderB: seq<string>, policy: HeaderPolicy, bodyHash: seq<byte> -> u64)
    requires IsOrder(a.headers, orderA) && IsOrder(b.headers, orderB)
    ensures Feed(InputOf(a, orderA, policy, bodyHash)) == Feed(InputOf(b, orderB, policy, bodyHash))
            <==> SameFields(a, b, bodyHash) && SameHeaders(a.headers, b.headers, policy)
  {
    var x, y := InputOf(a, orderA, policy, bodyHash), InputOf(b, orderB, policy, bodyHash);
    var ps, qs := Pairs(a.headers, orderA, policy), Pairs(b.headers, orderB, policy);
    PairOrder();
    SortDecidesMultiset(ps, qs, PairLe);
    forall p
      ensures multiset(ps)[p] == |Sources(a.headers, a.headers.Keys, policy, p)|
      ensures multiset(qs)[p] == |Sources(b.headers, b.headers.Keys, policy, p)|
    {
      PairsCount(a.headers, orderA, a.headers.Keys, policy, p);
      PairsCount(b.headers, orderB, b.headers.Keys, policy, p);
    }
    assert multiset(ps) == multiset(qs) <==> SameHeaders(a.headers, b.headers, policy) by {
      if SameHeaders(a.headers, b.headers, policy) {
        forall p ensures multiset(ps)[p] == multiset(qs)[p] {
          assert |Sources(a.headers, a.headers.Keys, policy, p)| == |Sources(b.headers, b.headers.Keys, policy, p)|;
        }
      }
    }
    if Feed(x) == Feed(y) {
      FeedInjective(x, y);
    }
  }

  /** Giving one header another value changes what is hashed exactly when the policy includes it. */
  lemma ValueMattersIff(req: HttpRequest, order: seq<string>, name: string, v: string, w: string, policy: HeaderPolicy, bodyHash: seq<byte> -> u64)
    requires name in req.headers && v != w
    requires IsOrder(req.headers, order)
    ensures Feed(InputOf(req.(headers := req.headers[name := v]), order, policy, bodyHash))
            == Feed(InputOf(req.(headers := req.headers[name := w]), order, policy, bodyHash))
            <==> !IncludeHeader(Lower(name), policy)
  {
    var rest := req.headers - {name};
    var a, b := req.headers[name := v], req.headers[name := w];
    assert a.Keys == req.headers.Keys && b.Keys == req.headers.Keys;
    assert a == With(rest, name, Some(v)) && b == With(rest, name, Some(w));
    FedAlikeIff(req.(headers := a), order, req.(headers := b), order, policy, bodyHash);
    SameHeadersIff(rest, name, Some(v), Some(w), policy);
  }

  function With(m: map<string, string>, name: string, value: Option<string>): map<string, string> {
    if value.Some? then m[name := value.value] else m
  }

  /** The pairs that come from `m` and, if it has a value, from the header `name`. */
  lemma SourcesWith(m: map<string, string>, name: string, value: Option<string>, policy: HeaderPolicy, p: (string, string))
    requires name !in m
    ensures var n := With(m, name, value);
            |Sources(n, n.Keys, policy, p)|
            == |Sources(m, m.Keys, policy, p)|
               + if value.Some? && IncludeHeader(Lower(name), policy) && (Lower(name), value.value) == p then 1 else 0
  {
    if value.Some? { SourcesPut(m, name, value.value, policy, p); }
  }

  lemma SourcesPut(m: map<string, string>, name: string, v: string, policy: HeaderPolicy, p: (string, string))
    requires name !in m
    ensures |Sources(m[name := v], m[name := v].Keys, policy, p)|
            == |Sources(m, m.Keys, policy, p)| + if IncludeHeader(Lower(name), policy) && (Lower(name), v) == p then 1 else 0
  {
    var n := m[name := v];
    assert n.Keys - {name} == m.Keys;
    SourcesStep(n, n.Keys, name, policy, p);
    assert Sources(n, m.Keys, policy, p) == Sources(m, m.Keys, policy, p);
  }

  /** Giving a header another value, adding it or taking it away changes what is collected exactly when
      the policy includes it. */
  lemma SameHeadersIff(m: map<string, string>, name: string, v: Option<string>, w: Option<string>, policy: HeaderPolicy)
    requires name !in m
    ensures SameHeaders(With(m, name, v), With(m, name, w), policy) <==> v == w || !IncludeHeader(Lower(name), policy)
  {
    var a, b := With(m, name, v), With(m, name, w);
    forall p
      ensures |Sources(a, a.Keys, policy, p)| - |Sources(b, b.Keys, policy, p)|
              == (if v.Some? && IncludeHeader(Lower(name), policy) && (Lower(name), v.value) == p then 1 else 0)
                 - (if w.Some? && IncludeHeader(Lower(name), policy) && (Lower(name), w.value) == p then 1 else 0)
    {
      SourcesWith(m, name, v, policy, p);
      SourcesWith(m, name, w, policy, p);
    }
    if v != w && IncludeHeader(Lower(name), policy) {
      var p := (Lower(name), if v.Some? then v.value else w.value);
      assert |Sources(a, a.Keys, policy, p)| != |Sources(b, b.Keys, policy, p)|;
    }
  }

  function FormatKey(h: u64): string {
    "cache:" + HexDigits(h, 16)
  }

  const NO_REQUEST: KeyInput := KeyInput("", "", "", "", "", [], 0)

  /** Filters and lowercases the headers in whatever order the map yields them. */
  method CollectHeaders(m: map<string, string>, policy: HeaderPolicy)
    returns (headers: seq<(string, string)>, ghost order: seq<string>)
    ensures IsOrder(m, order) && headers == Pairs(m, order, policy)
    ensures forall p :: multiset(headers)[p] == |Sources(m, m.Keys, policy, p)|
  {
    headers := [];
    order := [];
    var rest := m.Keys;
    while rest != {}
      invariant rest <= m.Keys && Within(m, order)
      invariant multiset(order) == multiset(m.Keys - rest)
      invariant headers == Pairs(m, order, policy)
      decreases |rest|
    {
      var k :| k in rest;
      headers := headers + Pick(m, k, policy);
      assert m.Keys - (rest - {k}) == (m.Keys - rest) + {k};
      assert (order + [k])[..|order|] == order;
      order := order + [k];
      rest := rest - {k};
    }
    assert m.Keys - rest == m.Keys;
    forall p ensures multiset(headers)[p] == |Sources(m, m.Keys, policy, p)| {
      PairsCount(m, order, m.Keys, policy, p);
    }
  }

  /** Collects, sorts and hashes. */
  method ComputeCacheKey(req: CheckRequest, policy: HeaderPolicy, bodyHash: seq<byte> -> u64, hash: seq<Atom> -> u64)
    returns (key: string)
    ensures req.http.None? ==> key == FormatKey(hash(Feed(NO_REQUEST)))
    ensures req.http.Some? ==> forall order :: IsOrder(req.http.value.headers, order) ==>
              key == FormatKey(hash(Feed(InputOf(req.http.value, order, policy, bodyHash))))
  {
    if req.http.None? {
      return FormatKey(hash(Feed(NO_REQUEST)));
    }
    var h := req.http.value;
    ghost var visited;
    var headers: seq<(string, string)>;
    headers, visited := CollectHeaders(h.headers, policy);
    headers := Sort(headers, PairLe);
    key := FormatKey(hash(Feed(KeyInput(h.verb, h.path, h.host, h.scheme, h.query, headers, bodyHash(h.rawBody)))));
    forall order | IsOrder(h.headers, order)
      ensures Feed(InputOf(h, order, policy, bodyHash)) == Feed(InputOf(h, visited, policy, bodyHash))
    {
      FedAlikeIff(h, order, h, visited, policy, bodyHash);
    }
  }

  // --- the shard ---------------------------------------------------------------------------------

  const WORD32: nat := 0x1_0000_0000
  const WORD64: nat := 0x1_0000_0000_0000_0000

  /** `word` is the number of values of the platform's `usize`, which `hash as usize` truncates to. */
  function ShardIdOn(key: string, word: nat): nat
    requires word > 0
  {
    if !("cache:" <= key) then 0 else
      match ParseUint(key[6..], 16, U64_MAX)
      case None => 0
      case Some(h) => (h % word) % NUM_SHARDS
  }

  /** The filter runs on wasm32. */
  function ShardId(key: string): (r: nat)
    ensures r < NUM_SHARDS
  {
    ShardIdOn(key, WORD32)
  }

  /** Truncation to 32 bits never moves a key to another shard. */
  lemma ShardIdWordIndependent(key: string)
    ensures ShardIdOn(key, WORD32) == ShardIdOn(key, WORD64) < NUM_SHARDS
  {
    if "cache:" <= key {
      var parsed := ParseUint(key[6..], 16, U64_MAX);
      if parsed.Some? {
        ParseBounded(key[6..], 16, U64_MAX);
        assert parsed.value % WORD64 == parsed.value;
        TruncationKeepsShard(parsed.value);
      }
    }
  }

  lemma ParseBounded(s: string, radix: nat, max: nat)
    ensures ParseUint(s, radix, max).Some? ==> ParseUint(s, radix, max).value <= max
  {
  }

  /** Parsing a printed key finds the hash again, so the key of hash `h` lives in shard `h % 16`. */
  lemma KeyPlacement(h: u64)
    ensures |FormatKey(h)| == 22
    ensures ParseUint(FormatKey(h)[6..], 16, U64_MAX) == Some(h)
    ensures FormatKey(h)[..6] == "cache:" && ShardId(FormatKey(h)) == h % 16
  {
    HexParses(h, 16);
    TruncationKeepsShard(h);
    assert FormatKey(h)[..6] == "cache:" && FormatKey(h)[6..] == HexDigits(h, 16);
  }

  /** A string that is no printed key belongs to shard 0. */
  lemma OtherKeysInShard0(key: string)
    requires |key| < 6 || key[..6] != "cache:" || ParseUint(key[6..], 16, 0xFFFF_FFFF_FFFF_FFFF).None?
    ensures ShardId(key) == 0
  {
    if "cache:" <= key { assert key[..6] == "cache:"; }
  }

  lemma HexParses(h: u64, width: nat)
    requires width == 16
    ensures ParseUint(HexDigits(h, width), 16, U64_MAX) == Some(h)
  {
    Pow16Plus4(0); Pow16Plus4(4); Pow16Plus4(8); Pow16Plus4(12);
    HexRoundTrip(h, width, U64_MAX);
  }

  lemma TruncationKeepsShard(h: nat)
    ensures (h % WORD32) % NUM_SHARDS == h % NUM_SHARDS
  {
  }
}
