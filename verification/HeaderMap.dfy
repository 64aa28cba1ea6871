/** The host's request headers and the mutations applied to them.

    The host keeps, for each name, an ordered list of values; names compare without regard to case.
    Adding appends a value, setting replaces all values by one, removing deletes them all.
 */
module HeaderMap {
  import opened Wrappers
  import opened Ascii
  import opened Decision

  datatype Header = Header(name: string, value: string)

  function Values(h: seq<Header>, name: string): seq<string> {
    if h == [] then []
    else Values(h[..|h| - 1], name)
         + if EqIgnoreCase(h[|h| - 1].name, name) then [h[|h| - 1].value] else []
  }

  function Without(h: seq<Header>, name: string): seq<Header> {
    if h == [] then []
    else Without(h[..|h| - 1], name)
         + if EqIgnoreCase(h[|h| - 1].name, name) then [] else [h[|h| - 1]]
  }

  function Added(h: seq<Header>, name: string, value: string): seq<Header> {
    h + [Header(name, value)]
  }

  function Replaced(h: seq<Header>, name: string, value: string): seq<Header> {
    Without(h, name) + [Header(name, value)]
  }

  function ApplyOne(h: seq<Header>, m: Mutation): seq<Header> {
    match m
    case AppendIfExistsOrAdd(name, value) => Added(h, name, value)
    case AddIfAbsent(name, value) => if Values(h, name) == [] then Added(h, name, value) else h
    case OverwriteIfExistsOrAdd(name, value) => Replaced(h, name, value)
    case OverwriteIfExists(name, value) => if Values(h, name) != [] then Replaced(h, name, value) else h
    case Remove(name) => if IsRemovable(name) then Without(h, name) else h
  }

  function ApplyAll(h: seq<Header>, ms: seq<Mutation>): seq<Header> {
    if ms == [] then h else ApplyOne(ApplyAll(h, ms[..|ms| - 1]), ms[|ms| - 1])
  }

  class RequestHeaders {
    var headers: seq<Header>

    constructor (initial: seq<Header>)
      ensures headers == initial
    {
      headers := initial;
    }

    method Get(name: string) returns (value: Option<string>)
      ensures value.None? <==> Values(headers, name) == []
    {
      var vs := Values(headers, name);
      value := if vs == [] then None else Some(vs[0]);
    }

    method Add(name: string, value: string)
      modifies this
      ensures headers == Added(old(headers), name, value)
    {
      headers := headers + [Header(name, value)];
    }

    method Set(name: string, value: string)
      modifies this
      ensures headers == Replaced(old(headers), name, value)
    {
      headers := Without(headers, name) + [Header(name, value)];
    }

    method Delete(name: string)
      modifies this
      ensures headers == Without(old(headers), name)
    {
      headers := Without(headers, name);
    }

    method ApplyMutations(ms: seq<Mutation>)
      modifies this
      ensures headers == ApplyAll(old(headers), ms)
    {
      for i := 0 to |ms|
        invariant headers == ApplyAll(old(headers), ms[..i])
      {
        assert ms[..i + 1][..i] == ms[..i];
        match ms[i] {
          case AppendIfExistsOrAdd(name, value) => Add(name, value);
          case AddIfAbsent(name, value) =>
            var present := Get(name);
            if present.None? { Add(name, value); }
          case OverwriteIfExistsOrAdd(name, value) => Set(name, value);
          case OverwriteIfExists(name, value) =>
            var present := Get(name);
            if present.Some? { Set(name, value); }
          case Remove(name) =>
            if name != "" && !StartsWith(name, ':') && !EqIgnoreCase(name, "host") {
              Delete(name);
            }
        }
      }
      assert ms[..|ms|] == ms;
    }
  }

  // --- name by name ------------------------------------------------------------------------------

  /** What one mutation does to the values of its own name. */
  function ApplyToValues(vs: seq<string>, m: Mutation): seq<string> {
    match m
    case AppendIfExistsOrAdd(_, value) => vs + [value]
    case AddIfAbsent(_, value) => if vs == [] then [value] else vs
    case OverwriteIfExistsOrAdd(_, value) => [value]
    case OverwriteIfExists(_, value) => if vs != [] then [value] else []
    case Remove(name) => if IsRemovable(name) then [] else vs
  }

  function FoldValues(vs: seq<string>, ms: seq<Mutation>): seq<string> {
    if ms == [] then vs else ApplyToValues(FoldValues(vs, ms[..|ms| - 1]), ms[|ms| - 1])
  }

  function ForName(ms: seq<Mutation>, name: string): seq<Mutation> {
    if ms == [] then []
    else ForName(ms[..|ms| - 1], name)
         + if EqIgnoreCase(ms[|ms| - 1].name, name) then [ms[|ms| - 1]] else []
  }

  lemma {:induction false} ValuesWithout(h: seq<Header>, name: string, other: string)
    ensures Values(Without(h, name), other) == if EqIgnoreCase(name, other) then [] else Values(h, other)
  {
    if h != [] {
      var init, last := h[..|h| - 1], h[|h| - 1];
      ValuesWithout(init, name, other);
      if EqIgnoreCase(last.name, name) {
        assert Without(h, name) == Without(init, name);
      } else {
        assert Without(h, name)[..|Without(init, name)|] == Without(init, name);
      }
    }
  }

  lemma ValuesAdded(h: seq<Header>, name: string, value: string, other: string)
    ensures Values(Added(h, name, value), other)
            == Values(h, other) + if EqIgnoreCase(name, other) then [value] else []
  {
    assert Added(h, name, value)[..|h|] == h;
  }

  lemma SameNameSameValues(h: seq<Header>, name: string, other: string)
    requires EqIgnoreCase(name, other)
    ensures Values(h, name) == Values(h, other)
  {
    if h != [] { SameNameSameValues(h[..|h| - 1], name, other); }
  }

  lemma ValuesReplaced(h: seq<Header>, name: string, value: string, other: string)
    ensures Values(Replaced(h, name, value), other)
            == if EqIgnoreCase(name, other) then [value] else Values(h, other)
  {
    ValuesWithout(h, name, other);
    ValuesAdded(Without(h, name), name, value, other);
  }

  lemma ApplyOneByName(h: seq<Header>, m: Mutation, name: string)
    ensures Values(ApplyOne(h, m), name)
            == if EqIgnoreCase(m.name, name) then ApplyToValues(Values(h, name), m) else Values(h, name)
  {
    if EqIgnoreCase(m.name, name) { SameNameSameValues(h, m.name, name); }
    match m
    case AppendIfExistsOrAdd(_, value) => ValuesAdded(h, m.name, value, name);
    case AddIfAbsent(_, value) => ValuesAdded(h, m.name, value, name);
    case OverwriteIfExistsOrAdd(_, value) => ValuesReplaced(h, m.name, value, name);
    case OverwriteIfExists(_, value) => ValuesReplaced(h, m.name, value, name);
    case Remove(_) => ValuesWithout(h, m.name, name);
  }

  /** The final values of a name depend only on its original values and its own mutations, in order. */
  lemma {:induction false} AppliedNameByName(h: seq<Header>, ms: seq<Mutation>, name: string)
    ensures Values(ApplyAll(h, ms), name) == FoldValues(Values(h, name), ForName(ms, name))
  {
    if ms != [] {
      var init, last := ms[..|ms| - 1], ms[|ms| - 1];
      AppliedNameByName(h, init, name);
      ApplyOneByName(ApplyAll(h, init), last, name);
      if EqIgnoreCase(last.name, name) {
        assert ForName(ms, name)[..|ForName(init, name)|] == ForName(init, name);
      } else {
        assert ForName(ms, name) == ForName(init, name);
      }
    }
  }

  /** No mutation list, whatever its origin, takes away `host` or a pseudo-header. */
  lemma {:induction false} ProtectedNamesStay(h: seq<Header>, ms: seq<Mutation>, name: string)
    requires EqIgnoreCase(name, "host") || StartsWith(name, ':')
    requires Values(h, name) != []
    ensures Values(ApplyAll(h, ms), name) != []
  {
    if ms != [] {
      var init, last := ms[..|ms| - 1], ms[|ms| - 1];
      ProtectedNamesStay(h, init, name);
      ApplyOneByName(ApplyAll(h, init), last, name);
      if EqIgnoreCase(last.name, name) && StartsWith(name, ':') {
        assert Lower(last.name)[0] == Lower(name)[0] == ':';
        assert LowerChar(last.name[0]) == ':';
      }
    }
  }

  // --- removals come first ----------------------------------------------------------------------------

  ghost predicate Removes(names: seq<string>, name: string) {
    IsRemovable(Lower(name)) && exists n :: n in names && EqIgnoreCase(n, name)
  }

  lemma {:induction false} ApplyAllSplit(h: seq<Header>, a: seq<Mutation>, b: seq<Mutation>)
    ensures ApplyAll(h, a + b) == ApplyAll(ApplyAll(h, a), b)
  {
    if b == [] {
      assert a + b == a;
    } else {
      assert (a + b)[..|a + b| - 1] == a + b[..|b| - 1];
      ApplyAllSplit(h, a, b[..|b| - 1]);
    }
  }

  lemma RemovesSnoc(names: seq<string>, last: string, name: string)
    ensures Removes(names + [last], name)
            <==> Removes(names, name) || (IsRemovable(Lower(last)) && EqIgnoreCase(last, name))
  {
    assert forall n :: n in names + [last] <==> n in names || n == last;
  }

  lemma OneRemoval(h: seq<Header>, names: seq<string>, name: string)
    requires names != []
    ensures var init, last := names[..|names| - 1], names[|names| - 1];
            var before := Values(ApplyAll(h, Removals(init)), name);
            Values(ApplyAll(h, Removals(names)), name)
            == if IsRemovable(Lower(last)) && EqIgnoreCase(last, name) then [] else before
  {
    var init, last := names[..|names| - 1], names[|names| - 1];
    var low := Lower(last);
    if IsRemovable(low) {
      LowerIdempotent(last);
      assert Removals(names) == Removals(init) + [Remove(low)];
      assert Removals(names)[..|Removals(init)|] == Removals(init);
      ApplyOneByName(ApplyAll(h, Removals(init)), Remove(low), name);
    } else {
      assert Removals(names) == Removals(init);
    }
  }

  lemma {:induction false} RemovalsEffect(h: seq<Header>, names: seq<string>, name: string)
    ensures Values(ApplyAll(h, Removals(names)), name) == if Removes(names, name) then [] else Values(h, name)
  {
    if names != [] {
      var init, last := names[..|names| - 1], names[|names| - 1];
      assert names == init + [last];
      RemovesSnoc(init, last, name);
      RemovalsEffect(h, init, name);
      OneRemoval(h, names, name);
    }
  }

  /** An allow decision first clears the names it removes, `host` and pseudo-headers excepted, and
      then applies its additions; a name both removed and added keeps only what was added. */
  lemma AllowRemovesFirst(h: seq<Header>, ok: OkHttpResponse, name: string)
    ensures Values(ApplyAll(h, AllowMutationList(ok)), name)
            == FoldValues(if Removes(ok.headersToRemove, name) then [] else Values(h, name), ForName(Additions(ok.headers), name))
  {
    var mid := ApplyAll(h, Removals(ok.headersToRemove));
    ApplyAllSplit(h, Removals(ok.headersToRemove), Additions(ok.headers));
    RemovalsEffect(h, ok.headersToRemove, name);
    AppliedNameByName(mid, Additions(ok.headers), name);
  }

  // --- what an OK answer does to a header ------------------------------------------------------------

  /** The answer lists `name` for removal, and it is neither `host` nor a pseudo-header. */
  ghost predicate Clears(names: seq<string>, name: string) {
    name != "" && name[0] != ':' && Lower(name) != "host" && exists n :: n in names && Lower(n) == Lower(name)
  }

  /** The option names `name` and has a value, or keeps an empty one. */
  predicate Concerns(option: HeaderValueOption, name: string) {
    && option.header.Some? && option.header.value.key != "" && Lower(option.header.value.key) == Lower(name)
    && (option.header.value.value != "" || option.keepEmptyValue)
  }

  lemma ClearsIff(names: seq<string>, name: string)
    ensures Clears(names, name) <==> Removes(names, name)
  {
    LowerIdempotent(name);
    if name != "" { assert Lower(name)[0] == LowerChar(name[0]); }
  }

  lemma {:induction false} AdditionsSnoc(options: seq<HeaderValueOption>, last: HeaderValueOption)
    ensures Additions(options + [last])
            == Additions(options) + match HeaderMutation(last) case None => [] case Some(m) => [m]
  {
    if options == [] {
      assert [] + [last] == [last];
    } else {
      assert (options + [last])[1..] == options[1..] + [last];
      AdditionsSnoc(options[1..], last);
    }
  }

  /** Without options an OK answer only clears the names it may remove. */
  lemma {:induction false} AllowClears(h: seq<Header>, names: seq<string>, name: string)
    ensures Values(ApplyAll(h, AllowMutationList(OkHttpResponse([], names))), name)
            == if Clears(names, name) then [] else Values(h, name)
  {
    AllowRemovesFirst(h, OkHttpResponse([], names), name);
    ClearsIff(names, name);
  }

  ghost predicate OptionEffect(o: HeaderValueOption, name: string, vs: seq<string>, ws: seq<string>) {
    if !Concerns(o, name) then ws == vs
    else
      var v := o.header.value.value;
      && (o.append == Some(true) ==> ws == vs + [v])
      && (o.append == Some(false) ==> ws == [v])
      && (o.append == None && o.appendAction == 1 ==> ws == if vs == [] then [v] else vs)
      && (o.append == None && o.appendAction == 2 ==> ws == [v])
      && (o.append == None && o.appendAction == 3 ==> ws == if vs == [] then [] else [v])
      && (o.append == None && o.appendAction !in {1, 2, 3} ==> ws == vs + [v])
  }

  lemma OptionApplied(g: seq<Header>, o: HeaderValueOption, m: Mutation, name: string)
    requires HeaderMutation(o) == Some(m)
    ensures OptionEffect(o, name, Values(g, name), Values(ApplyOne(g, m), name))
  {
    ApplyOneByName(g, m, name);
    LowerIdempotent(o.header.value.key);
    assert m.name == Lower(o.header.value.key);
  }

  /** What one more header option of an OK answer does to the values of a name. */
  lemma {:induction false} OneMoreOption(h: seq<Header>, options: seq<HeaderValueOption>, names: seq<string>, o: HeaderValueOption, name: string)
    ensures OptionEffect(o, name,
                         Values(ApplyAll(h, AllowMutationList(OkHttpResponse(options, names))), name),
                         Values(ApplyAll(h, AllowMutationList(OkHttpResponse(options + [o], names))), name))
  {
    var before := AllowMutationList(OkHttpResponse(options, names));
    var after := AllowMutationList(OkHttpResponse(options + [o], names));
    AdditionsSnoc(options, o);
    match HeaderMutation(o)
    case None => assert after == before;
    case Some(m) =>
      assert after == before + [m] && after[..|after| - 1] == before;
      OptionApplied(ApplyAll(h, before), o, m, name);
  }

  /** The values that one option leaves of `vs`. */
  function WithOption(vs: seq<string>, o: HeaderValueOption, name: string): seq<string> {
    if !Concerns(o, name) then vs
    else
      var v := o.header.value.value;
      match o.append
      case Some(append) => if append then vs + [v] else [v]
      case None =>
        if o.appendAction == 1 then (if vs == [] then [v] else vs)
        else if o.appendAction == 2 then [v]
        else if o.appendAction == 3 then (if vs == [] then [] else [v])
        else vs + [v]
  }

  function WithOptions(vs: seq<string>, options: seq<HeaderValueOption>, name: string): seq<string> {
    if options == [] then vs
    else WithOption(WithOptions(vs, options[..|options| - 1], name), options[|options| - 1], name)
  }

  /** An OK answer leaves of each header's values what its options, one after the other, make of those
      that its removals have left. */
  lemma {:induction false} AllowedValues(h: seq<Header>, options: seq<HeaderValueOption>, names: seq<string>, name: string)
    ensures Values(ApplyAll(h, AllowMutationList(OkHttpResponse(options, names))), name)
            == WithOptions(if Clears(names, name) then [] else Values(h, name), options, name)
  {
    if options == [] {
      AllowClears(h, names, name);
    } else {
      var init, last := options[..|options| - 1], options[|options| - 1];
      AllowedValues(h, init, names, name);
      OneMoreOption(h, init, names, last, name);
      assert init + [last] == options;
    }
  }

  // --- reading header lists ----------------------------------------------------------------------------

  /** The values of a name are the values of its headers, in order. */
  lemma {:induction false} ValuesConcat(a: seq<Header>, b: seq<Header>, name: string)
    ensures Values(a + b, name) == Values(a, name) + Values(b, name)
  {
    if b == [] {
      assert a + b == a;
    } else {
      assert (a + b)[..|a + b| - 1] == a + b[..|b| - 1];
      ValuesConcat(a, b[..|b| - 1], name);
    }
  }

  lemma ValuesOfOne(h: Header, name: string)
    ensures Values([h], name) == if Lower(h.name) == Lower(name) then [h.value] else []
  {
    assert [h][..0] == [];
  }

  /** The last value given to `name`, in any capitalisation. */
  function LastValue(hs: seq<Header>, name: string): Option<string> {
    var vs := Values(hs, name);
    if vs == [] then None else Some(vs[|vs| - 1])
  }

  lemma LastValueSnoc(hs: seq<Header>, h: Header, name: string)
    ensures LastValue(hs + [h], name) == if EqIgnoreCase(h.name, name) then Some(h.value) else LastValue(hs, name)
  {
    assert (hs + [h])[..|hs|] == hs;
  }

  lemma WithoutSnoc(hs: seq<Header>, h: Header, name: string)
    ensures Without(hs + [h], name) == if EqIgnoreCase(h.name, name) then Without(hs, name) else Without(hs, name) + [h]
  {
    assert (hs + [h])[..|hs|] == hs;
  }

  /** The last value given to exactly this name. */
  function LastNamed(hs: seq<Header>, name: string): Option<string> {
    if hs == [] then None
    else if hs[|hs| - 1].name == name then Some(hs[|hs| - 1].value)
    else LastNamed(hs[..|hs| - 1], name)
  }

  /** Neither a pseudo-header nor the request identifier. */
  predicate Ordinary(name: string) {
    !StartsWith(name, ':') && !EqIgnoreCase(name, "x-request-id")
  }
}
