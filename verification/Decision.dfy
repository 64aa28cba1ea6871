/** The authorization service's answer, classified. */
module Decision {
  import opened Wrappers
  import opened Ascii

  datatype HeaderValue = HeaderValue(key: string, value: string)

  /** `appendAction` is the enumeration's wire number and can be any. */
  datatype HeaderValueOption = HeaderValueOption(
    header: Option<HeaderValue>,
    append: Option<bool>,
    appendAction: int,
    keepEmptyValue: bool)

  datatype OkHttpResponse = OkHttpResponse(headers: seq<HeaderValueOption>, headersToRemove: seq<string>)

  datatype DeniedHttpResponse = DeniedHttpResponse(status: Option<int>, headers: seq<HeaderValueOption>, body: string)

  datatype HttpResponse =
    | DeniedResponse(denied: DeniedHttpResponse)
    | OkResponse(ok: OkHttpResponse)
    | ErrorResponse(failed: DeniedHttpResponse)

  datatype CheckResponse = CheckResponse(httpResponse: Option<HttpResponse>)

  datatype Mutation =
    | AppendIfExistsOrAdd(name: string, value: string)
    | AddIfAbsent(name: string, value: string)
    | OverwriteIfExistsOrAdd(name: string, value: string)
    | OverwriteIfExists(name: string, value: string)
    | Remove(name: string)

  datatype AuthorizationDecision =
    | Allow(mutations: seq<Mutation>)
    | Deny(status: nat, body: string, headers: seq<(string, string)>)

  predicate IsRemovable(name: string) {
    name != "" && !StartsWith(name, ':') && !EqIgnoreCase(name, "host")
  }

  function ValidStatusOrForbidden(status: int): nat {
    if 100 <= status <= 599 then status else 403
  }

  function HeaderMutation(option: HeaderValueOption): Option<Mutation> {
    match option.header
    case None => None
    case Some(header) =>
      if header.key == "" then None
      else if header.value == "" && !option.keepEmptyValue then None
      else
        var name := Lower(header.key);
        match option.append
        case Some(true) => Some(AppendIfExistsOrAdd(name, header.value))
        case Some(false) => Some(OverwriteIfExistsOrAdd(name, header.value))
        case None =>
          if option.appendAction == 1 then Some(AddIfAbsent(name, header.value))
          else if option.appendAction == 2 then Some(OverwriteIfExistsOrAdd(name, header.value))
          else if option.appendAction == 3 then Some(OverwriteIfExists(name, header.value))
          else Some(AppendIfExistsOrAdd(name, header.value))
  }

  function HeaderPairs(headers: seq<HeaderValueOption>): seq<(string, string)> {
    if headers == [] then [] else
      var rest := HeaderPairs(headers[1..]);
      match headers[0].header
      case None => rest
      case Some(header) => if header.key == "" then rest else [(Lower(header.key), header.value)] + rest
  }

  function Removals(names: seq<string>): seq<Mutation> {
    if names == [] then [] else
      var name := Lower(names[|names| - 1]);
      Removals(names[..|names| - 1]) + if IsRemovable(name) then [Remove(name)] else []
  }

  function Additions(options: seq<HeaderValueOption>): seq<Mutation> {
    if options == [] then [] else
      match HeaderMutation(options[0])
      case None => Additions(options[1..])
      case Some(m) => [m] + Additions(options[1..])
  }

  /** All removals, then all additions, each in the order received. */
  function AllowMutationList(ok: OkHttpResponse): seq<Mutation> {
    Removals(ok.headersToRemove) + Additions(ok.headers)
  }

  method AllowMutations(ok: OkHttpResponse) returns (mutations: seq<Mutation>)
    ensures mutations == AllowMutationList(ok)
  {
    mutations := [];
    for i := 0 to |ok.headersToRemove|
      invariant mutations == Removals(ok.headersToRemove[..i])
    {
      var normalized := Lower(ok.headersToRemove[i]);
      if IsRemovable(normalized) {
        mutations := mutations + [Remove(normalized)];
      }
      assert ok.headersToRemove[..i + 1][..i] == ok.headersToRemove[..i];
    }
    assert ok.headersToRemove[..|ok.headersToRemove|] == ok.headersToRemove;
    mutations := mutations + Additions(ok.headers);
  }

  function Denial(denied: DeniedHttpResponse): AuthorizationDecision {
    Deny(
      match denied.status case None => 403 case Some(code) => ValidStatusOrForbidden(code),
      if denied.body == "" then "Forbidden" else denied.body,
      HeaderPairs(denied.headers))
  }

  function FromCheckResponse(response: CheckResponse): AuthorizationDecision {
    match response.httpResponse
    case Some(OkResponse(ok)) => Allow(AllowMutationList(ok))
    case Some(DeniedResponse(denied)) => Denial(denied)
    case Some(ErrorResponse(denied)) => Denial(denied)
    case None => Deny(403, "Forbidden", [])
  }

  ghost predicate LowerNamed(hs: seq<(string, string)>) {
    forall i :: 0 <= i < |hs| ==> hs[i].0 != "" && Lower(hs[i].0) == hs[i].0
  }

  lemma {:induction false} PairsLowerNamed(headers: seq<HeaderValueOption>)
    ensures LowerNamed(HeaderPairs(headers))
  {
    if headers != [] {
      PairsLowerNamed(headers[1..]);
      if headers[0].header.Some? { LowerIdempotent(headers[0].header.value.key); }
    }
  }

  lemma {:induction false} RemovalsPassGuard(names: seq<string>)
    ensures forall m :: m in Removals(names) ==> m.Remove? && IsRemovable(m.name) && Lower(m.name) == m.name
  {
    if names != [] {
      RemovalsPassGuard(names[..|names| - 1]);
      LowerIdempotent(names[|names| - 1]);
    }
  }

  lemma {:induction false} AdditionsNeverRemove(options: seq<HeaderValueOption>)
    ensures forall m :: m in Additions(options) ==> !m.Remove? && m.name != "" && Lower(m.name) == m.name
  {
    if options != [] {
      AdditionsNeverRemove(options[1..]);
      if options[0].header.Some? { LowerIdempotent(options[0].header.value.key); }
    }
  }

  /** Only an OK answer allows; every denial has a valid status, a body, and lowercase header names;
      and every removal in an allow list passes the guard that is checked again when it is applied. */
  lemma DecisionShape(response: CheckResponse)
    ensures var d := FromCheckResponse(response);
            && (d.Allow? <==> response.httpResponse.Some? && response.httpResponse.value.OkResponse?)
            && (d.Allow? ==> forall m :: m in d.mutations ==>
                  m.name != "" && Lower(m.name) == m.name && (m.Remove? ==> IsRemovable(m.name)))
            && (d.Deny? ==> 100 <= d.status <= 599 && d.body != "" && LowerNamed(d.headers))
  {
    match response.httpResponse
    case None =>
    case Some(DeniedResponse(denied)) => PairsLowerNamed(denied.headers);
    case Some(ErrorResponse(denied)) => PairsLowerNamed(denied.headers);
    case Some(OkResponse(ok)) =>
      RemovalsPassGuard(ok.headersToRemove);
      AdditionsNeverRemove(ok.headers);
  }

  // --- denials -------------------------------------------------------------------------------------

  /** The named headers of a denial, in order, with their names in lower case. */
  function NamedPairs(headers: seq<HeaderValueOption>): seq<(string, string)> {
    if headers == [] then []
    else
      var last := headers[|headers| - 1].header;
      NamedPairs(headers[..|headers| - 1])
      + if last.Some? && last.value.key != "" then [(Lower(last.value.key), last.value.value)] else []
  }

  lemma {:induction false} PairsSnoc(headers: seq<HeaderValueOption>, last: HeaderValueOption)
    ensures HeaderPairs(headers + [last])
            == HeaderPairs(headers)
               + if last.header.Some? && last.header.value.key != "" then [(Lower(last.header.value.key), last.header.value.value)] else []
  {
    if headers == [] {
      assert [] + [last] == [last];
    } else {
      assert (headers + [last])[1..] == headers[1..] + [last];
      PairsSnoc(headers[1..], last);
    }
  }

  lemma {:induction false} PairsAreNamed(headers: seq<HeaderValueOption>)
    ensures HeaderPairs(headers) == NamedPairs(headers)
  {
    if headers != [] {
      var init, last := headers[..|headers| - 1], headers[|headers| - 1];
      PairsAreNamed(init);
      PairsSnoc(init, last);
      assert init + [last] == headers;
    }
  }

  /** What a denied or failed answer becomes: its own status if that is one, its own body if it has one,
      and its named headers. */
  lemma {:induction false} DenialIs(response: CheckResponse, denied: DeniedHttpResponse)
    requires response.httpResponse in {Some(DeniedResponse(denied)), Some(ErrorResponse(denied))}
    ensures var d := FromCheckResponse(response);
            && d.Deny? && d.headers == NamedPairs(denied.headers)
            && (denied.status.Some? && 100 <= denied.status.value <= 599 ==> d.status == denied.status.value)
            && (denied.status.None? || denied.status.value < 100 || 599 < denied.status.value ==> d.status == 403)
            && (denied.body != "" ==> d.body == denied.body)
            && (denied.body == "" ==> d.body == "Forbidden")
  {
    PairsAreNamed(denied.headers);
  }

  /** An answer that says neither is a denial. */
  lemma NoVerdictIs(response: CheckResponse)
    requires response.httpResponse.None?
    ensures FromCheckResponse(response) == Deny(403, "Forbidden", [])
  {
  }
}
