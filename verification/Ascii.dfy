/** Case folding, trimming and numbers as the Rust standard library defines them.
    Case folding is ASCII-only. */
module Ascii {
  import opened Wrappers

  function LowerChar(c: char): char {
    if 'A' <= c <= 'Z' then c - 'A' + 'a' else c
  }

  /** `to_ascii_lowercase` */
  function Lower(s: string): (r: string)
    ensures |r| == |s|
  {
    seq(|s|, i requires 0 <= i < |s| => LowerChar(s[i]))
  }

  /** `eq_ignore_ascii_case` */
  predicate EqIgnoreCase(a: string, b: string) {
    Lower(a) == Lower(b)
  }

  /** Only the 26 capitals are folded, each to the letter 32 code points further on. */
  lemma LowerIs(s: string, i: nat)
    requires i < |s|
    ensures Lower(s)[i] as int == if 65 <= s[i] as int <= 90 then s[i] as int + 32 else s[i] as int
  {
  }

  lemma LowerIdempotent(s: string)
    ensures Lower(Lower(s)) == Lower(s)
  {
  }

  /** `str::starts_with` for one character. */
  predicate StartsWith(s: string, c: char) {
    s != [] && s[0] == c
  }

  /** The code points with the Unicode property White_Space, which is what `trim` removes. */
  predicate IsSpace(c: char) {
    var n := c as int;
    9 <= n <= 13 || n == 32 || n == 0x85 || n == 0xA0 || n == 0x1680 || 0x2000 <= n <= 0x200A
    || n == 0x2028 || n == 0x2029 || n == 0x202F || n == 0x205F || n == 0x3000
  }

  function TrimStart(s: string): (r: string)
    ensures r != [] ==> !IsSpace(r[0]) && s != [] && r[|r| - 1] == s[|s| - 1]
  {
    if s != [] && IsSpace(s[0]) then TrimStart(s[1..]) else s
  }

  function TrimEnd(s: string): (r: string)
    ensures r != [] ==> !IsSpace(r[|r| - 1]) && s != [] && r[0] == s[0]
  {
    if s != [] && IsSpace(s[|s| - 1]) then TrimEnd(s[..|s| - 1]) else s
  }

  function Trim(s: string): string {
    TrimEnd(TrimStart(s))
  }

  ghost predicate AllSpace(s: string) {
    forall i :: 0 <= i < |s| ==> IsSpace(s[i])
  }

  /** `r` is `s` without some white space at either end, and neither begins nor ends with any. */
  ghost predicate TrimmedTo(s: string, r: string) {
    && (exists a, b :: AllSpace(a) && AllSpace(b) && s == a + r + b)
    && (r != [] ==> !IsSpace(r[0]) && !IsSpace(r[|r| - 1]))
  }

  lemma {:induction false} TrimStartOf(s: string)
    ensures exists a :: AllSpace(a) && s == a + TrimStart(s)
  {
    if s != [] && IsSpace(s[0]) {
      TrimStartOf(s[1..]);
      var a :| AllSpace(a) && s[1..] == a + TrimStart(s);
      assert AllSpace([s[0]] + a) && s == [s[0]] + a + TrimStart(s);
    } else {
      assert AllSpace("") && s == "" + TrimStart(s);
    }
  }

  lemma {:induction false} TrimEndOf(s: string)
    ensures exists b :: AllSpace(b) && s == TrimEnd(s) + b
  {
    if s != [] && IsSpace(s[|s| - 1]) {
      var init, last := s[..|s| - 1], s[|s| - 1];
      TrimEndOf(init);
      var b :| AllSpace(b) && init == TrimEnd(s) + b;
      assert AllSpace(b + [last]) && s == TrimEnd(s) + (b + [last]);
    } else {
      assert AllSpace("") && s == TrimEnd(s) + "";
    }
  }

  lemma {:induction false} TrimIs(s: string)
    ensures TrimmedTo(s, Trim(s))
  {
    TrimStartOf(s);
    TrimEndOf(TrimStart(s));
    var a :| AllSpace(a) && s == a + TrimStart(s);
    var b :| AllSpace(b) && TrimStart(s) == Trim(s) + b;
    assert s == a + Trim(s) + b;
  }

  /** Trimming and lowercasing a second time changes nothing. */
  lemma NormalIsFixed(s: string)
    ensures Lower(Trim(Lower(Trim(s)))) == Lower(Trim(s))
  {
    var t := Trim(s);
    if t != [] {
      assert !IsSpace(Lower(t)[0]) && !IsSpace(Lower(t)[|t| - 1]);
    }
    assert Trim(Lower(t)) == Lower(t);
    LowerIdempotent(t);
  }

  // --- numbers ---------------------------------------------------------------------------------

  function DigitValue(c: char): nat {
    if '0' <= c <= '9' then (c - '0') as nat
    else if 'a' <= c <= 'z' then 10 + (c - 'a') as nat
    else if 'A' <= c <= 'Z' then 10 + (c - 'A') as nat
    else 99
  }

  /** The checked left fold of `from_str_radix`: every prefix must fit. */
  function ParseDigits(s: string, radix: nat, max: nat): Option<nat> {
    if s == [] then Some(0) else
      match ParseDigits(s[..|s| - 1], radix, max)
      case None => None
      case Some(v) =>
        var d := DigitValue(s[|s| - 1]);
        if d < radix && v * radix + d <= max then Some(v * radix + d) else None
  }

  /** `from_str_radix` for an unsigned type: one leading `+` is accepted, an empty number is not. */
  function ParseUint(s: string, radix: nat, max: nat): Option<nat> {
    if s == [] || s == "+" then None
    else if s[0] == '+' then ParseDigits(s[1..], radix, max)
    else ParseDigits(s, radix, max)
  }

  /** The number of a digit in base 16 or less, in either case. */
  lemma DigitIs(c: char, d: nat)
    requires d < 16
    ensures DigitValue(c) == d <==> c == "0123456789abcdef"[d] || c == "0123456789ABCDEF"[d]
  {
  }

  function Power(base: nat, n: nat): nat {
    if n == 0 then 1 else base * Power(base, n - 1)
  }

  ghost predicate AllDigits(s: string, radix: nat) {
    forall i :: 0 <= i < |s| ==> DigitValue(s[i]) < radix
  }

  /** The number that the digits stand for by their places. */
  function NumberOf(s: string, radix: nat): nat {
    if s == [] then 0 else DigitValue(s[0]) * Power(radix, |s| - 1) + NumberOf(s[1..], radix)
  }

  lemma {:induction false} NumberSnoc(s: string, radix: nat)
    requires s != []
    ensures NumberOf(s, radix) == NumberOf(s[..|s| - 1], radix) * radix + DigitValue(s[|s| - 1])
  {
    if |s| == 1 {
      assert s[1..] == [] && s[..0] == [];
      assert Power(radix, 0) == 1;
    } else {
      var init, tail := s[..|s| - 1], s[1..];
      NumberSnoc(tail, radix);
      assert tail[..|tail| - 1] == init[1..];
      var p, d, rest := Power(radix, |s| - 2), DigitValue(s[0]), NumberOf(init[1..], radix);
      assert Power(radix, |s| - 1) == radix * p;
      Distribute(d, p, rest, radix);
    }
  }

  lemma Distribute(d: nat, p: nat, rest: nat, radix: nat)
    ensures d * (radix * p) + rest * radix == (d * p + rest) * radix
  {
  }

  lemma {:induction false} DigitsParse(s: string, radix: nat, max: nat)
    requires radix >= 1
    ensures ParseDigits(s, radix, max)
            == if AllDigits(s, radix) && (s == [] || NumberOf(s, radix) <= max) then Some(NumberOf(s, radix)) else None
  {
    if s != [] {
      var init := s[..|s| - 1];
      DigitsParse(init, radix, max);
      NumberSnoc(s, radix);
      AtLeastPrefix(NumberOf(init, radix), radix, DigitValue(s[|s| - 1]));
      assert AllDigits(s, radix) <==> AllDigits(init, radix) && DigitValue(s[|s| - 1]) < radix;
    }
  }

  lemma AtLeastPrefix(v: nat, radix: nat, d: nat)
    requires radix >= 1
    ensures v * radix + d >= v
  {
  }

  /** A string parses exactly when it has digits, and nothing else but one `+` before them, and the
      number they stand for fits; and that is the result. */
  lemma {:induction false} ParseUintIff(s: string, radix: nat, max: nat)
    requires radix >= 1
    ensures var digits := if s != [] && s[0] == '+' then s[1..] else s;
            ParseUint(s, radix, max)
            == if digits != [] && AllDigits(digits, radix) && NumberOf(digits, radix) <= max
               then Some(NumberOf(digits, radix)) else None
  {
    DigitsParse(if s != [] && s[0] == '+' then s[1..] else s, radix, max);
  }

  function HexChar(d: nat): char
    requires d < 16
  {
    "0123456789abcdef"[d]
  }

  /** The low `n` hexadecimal digits of `h`; `{:016x}` prints `HexDigits(h, 16)`. */
  function HexDigits(h: nat, n: nat): (r: string)
    ensures |r| == n && forall i :: 0 <= i < n ==> '0' <= r[i] <= '9' || 'a' <= r[i] <= 'f'
  {
    if n == 0 then "" else HexDigits(h / 16, n - 1) + [HexChar(h % 16)]
  }

  lemma HexCharDigit(d: nat)
    requires d < 16
    ensures DigitValue(HexChar(d)) == d && HexChar(d) != '+'
  {
  }

  function Pow16(n: nat): nat {
    if n == 0 then 1 else 16 * Pow16(n - 1)
  }

  lemma Pow16Plus4(n: nat)
    ensures Pow16(n + 4) == 0x1_0000 * Pow16(n)
  {
    assert Pow16(n + 4) == 16 * Pow16(n + 3) == 256 * Pow16(n + 2);
    assert Pow16(n + 2) == 16 * Pow16(n + 1) == 256 * Pow16(n);
  }

  lemma {:induction false} HexRoundTrip(h: nat, n: nat, max: nat)
    requires h < Pow16(n) && h <= max
    ensures ParseDigits(HexDigits(h, n), 16, max) == Some(h)
    ensures n > 0 ==> HexDigits(h, n)[0] != '+'
  {
    if n > 0 {
      HexRoundTrip(h / 16, n - 1, max);
      var s := HexDigits(h, n);
      assert s[..|s| - 1] == HexDigits(h / 16, n - 1);
      HexCharDigit(h % 16);
      if n == 1 { assert s[0] == HexChar(h % 16); }
    }
  }
}
