/** The cache's header policy, from the configured mode and names. */
module Config {
  import opened Wrappers
  import opened Ordering
  import opened Ascii
  import opened CacheKey

  function Normal(name: string): string {
    Lower(Trim(name))
  }

  ghost function Normals(names: seq<string>): set<string> {
    set i | 0 <= i < |names| :: Normal(names[i])
  }

  ghost predicate StrictlyIncreasing(s: seq<string>) {
    forall i, j :: 0 <= i < j < |s| ==> StrLess(s[i], s[j])
  }

  ghost function Elements(s: seq<string>): set<string> {
    set x | x in s
  }

  /** `r` is the normal form of `names`: ascending, without repetitions, and nothing else but the
      trimmed, lowercased names. */
  ghost predicate IsNormalForm(names: seq<string>, r: seq<string>) {
    StrictlyIncreasing(r) && Elements(r) == Normals(names)
  }

  // --- normalisation -----------------------------------------------------------------------------

  /** `Vec::dedup`: drops an element equal to its predecessor. */
  function Dedup(s: seq<string>): seq<string> {
    if |s| <= 1 then s
    else if s[|s| - 2] == s[|s| - 1] then Dedup(s[..|s| - 1])
    else Dedup(s[..|s| - 1]) + [s[|s| - 1]]
  }

  lemma {:induction false} DedupElements(s: seq<string>)
    ensures forall x :: x in Dedup(s) <==> x in s
    ensures s != [] ==> Dedup(s) != [] && Dedup(s)[|Dedup(s)| - 1] == s[|s| - 1]
  {
    if |s| > 1 {
      var init, last := s[..|s| - 1], s[|s| - 1];
      DedupElements(init);
      assert s == init + [last];
      if s[|s| - 2] == last { assert init[|init| - 1] == last; }
    }
  }

  lemma {:induction false} DedupSorted(s: seq<string>)
    requires Sorted(s, StrLe)
    ensures StrictlyIncreasing(Dedup(s))
  {
    if |s| > 1 {
      var init, last := s[..|s| - 1], s[|s| - 1];
      DedupSorted(init);
      DedupElements(init);
      var d := Dedup(init);
      if s[|s| - 2] != last {
        forall i | 0 <= i < |d| ensures StrLess(d[i], last) {
          if i < |d| - 1 {
            StrTransitive(d[i], d[|d| - 1], last);
            if d[i] == last { StrAntisymmetric(last, d[|d| - 1]); }
          }
        }
      }
    }
  }

  /** Rejects exactly when some name is blank, and otherwise returns the normal form. */
  method NormalizeHeaderNames(names: seq<string>) returns (r: Result<seq<string>, string>)
    ensures r.Err? <==> "" in Normals(names)
    ensures r.Ok? ==> IsNormalForm(names, r.value)
  {
    var normalized: seq<string> := [];
    for i := 0 to |names|
      invariant Elements(normalized) == Normals(names[..i])
      invariant "" !in normalized
    {
      var name := Normal(names[i]);
      assert names[..i + 1] == names[..i] + [names[i]];
      assert Normals(names[..i + 1]) == Normals(names[..i]) + {name};
      if name == "" {
        assert names[i] == names[..i + 1][i];
        assert "" == Normal(names[i]);
        return Err("cache.headers.names must contain non-empty header names");
      }
      normalized := normalized + [name];
    }
    assert names[..|names|] == names;
    StrOrder();
    SortCorrect(normalized, StrLe);
    var sorted := Sort(normalized, StrLe);
    forall x ensures x in sorted <==> x in normalized {
      assert x in sorted <==> x in multiset(sorted);
      assert x in normalized <==> x in multiset(normalized);
    }
    DedupSorted(sorted);
    DedupElements(sorted);
    assert Elements(sorted) == Elements(normalized);
    return Ok(Dedup(sorted));
  }

  lemma NoElements(s: seq<string>)
    ensures Elements(s) == {} <==> s == []
  {
    if s != [] { assert s[0] in Elements(s); }
  }

  /** Ascending lists without repetitions are determined by their elements. */
  lemma {:induction false} IncreasingUnique(a: seq<string>, b: seq<string>)
    requires StrictlyIncreasing(a) && StrictlyIncreasing(b) && Elements(a) == Elements(b)
    ensures a == b
  {
    NoElements(a);
    NoElements(b);
    if a != [] {
      StrOrder();
      assert a[0] in Elements(b) && b[0] in Elements(a);
      assert a[0] == b[0];
      forall x ensures x in Elements(a[1..]) <==> x in Elements(a) - {a[0]} {
        assert a == [a[0]] + a[1..];
      }
      forall x ensures x in Elements(b[1..]) <==> x in Elements(b) - {b[0]} {
        assert b == [b[0]] + b[1..];
      }
      IncreasingUnique(a[1..], b[1..]);
      assert a == [a[0]] + a[1..] && b == [b[0]] + b[1..];
    }
  }

  /** The order and repetition of the configured names do not matter. */
  lemma NormalFormUnique(names: seq<string>, r: seq<string>, other: seq<string>, s: seq<string>)
    requires IsNormalForm(names, r) && IsNormalForm(other, s)
    ensures r == s <==> Normals(names) == Normals(other)
  {
    if Normals(names) == Normals(other) {
      IncreasingUnique(r, s);
    }
  }

  /** Normalising a normal form gives it back. */
  lemma NormalFormIdempotent(names: seq<string>, r: seq<string>)
    requires IsNormalForm(names, r)
    ensures IsNormalForm(r, r)
  {
    forall i | 0 <= i < |r| ensures Normal(r[i]) == r[i] {
      assert r[i] in Elements(r);
      var j :| 0 <= j < |names| && r[i] == Normal(names[j]);
      NormalIsFixed(names[j]);
    }
    forall x | x in Elements(r) ensures x in Normals(r) {
      var i :| 0 <= i < |r| && r[i] == x;
      assert Normal(r[i]) == x;
    }
  }

  // --- the policy --------------------------------------------------------------------------------

  /** What the configuration asks for, read off the raw names: does a header count? */
  ghost predicate Selects(mode: string, names: seq<string>, header: string) {
    var named := exists i :: 0 <= i < |names| && EqIgnoreCase(Trim(names[i]), header);
    if mode == "allowlist" then named
    else !EqIgnoreCase(header, "x-request-id") && (mode == "denylist" ==> !named)
  }

  /** An accepted configuration includes a header, in any capitalisation, exactly when it selects it. */
  method CacheHeaderPolicy(mode: string, names: seq<string>) returns (r: Result<HeaderPolicy, string>)
    ensures r.Err? <==> "" in Normals(names) || mode !in {"all_except_request_id", "allowlist", "denylist"}
    ensures r.Ok? ==> forall header ::
              IncludeHeader(Lower(header), r.value) <==> Selects(mode, names, header)
  {
    var normalized := NormalizeHeaderNames(names);
    if normalized.Err? {
      return Err(normalized.error);
    }
    forall header ensures Lower(header) in normalized.value
                          <==> exists i :: 0 <= i < |names| && EqIgnoreCase(Trim(names[i]), header)
    {
      SelectedName(names, normalized.value, header);
    }
    forall header ensures Lower(Lower(header)) == Lower(header) { LowerIdempotent(header); }
    if mode == "all_except_request_id" {
      return Ok(AllExceptRequestId);
    } else if mode == "allowlist" {
      return Ok(Allowlist(normalized.value));
    } else if mode == "denylist" {
      return Ok(Denylist(normalized.value));
    } else {
      return Err("cache.headers.mode must be all_except_request_id, allowlist, or denylist");
    }
  }

  lemma SelectedName(names: seq<string>, r: seq<string>, header: string)
    requires IsNormalForm(names, r)
    ensures Lower(header) in r
            <==> exists i :: 0 <= i < |names| && EqIgnoreCase(Trim(names[i]), header)
  {
    assert Lower(header) in r <==> Lower(header) in Elements(r);
    if Lower(header) in r {
      var i :| 0 <= i < |names| && Lower(header) == Normal(names[i]);
      assert EqIgnoreCase(Trim(names[i]), header);
    }
    if i :| 0 <= i < |names| && EqIgnoreCase(Trim(names[i]), header) {
      assert Normal(names[i]) in Normals(names);
    }
  }
}
