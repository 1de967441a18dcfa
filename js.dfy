/** JavaScript value semantics the handlers lean on: truthiness of optional
    request fields, `String(n)` for a count and the global `parseInt`. */
module Js {
  import opened Wrappers
  import opened Text

  /** A string field is truthy when present and non-empty. */
  predicate Truthy(o: Option<string>) {
    o.Some? && o.value != ""
  }

  /** A number field is truthy when present and non-zero (NaN is not modelled). */
  predicate TruthyNum(o: Option<int>) {
    o.Some? && o.value != 0
  }

  function DigitChar(d: nat): (c: char)
    requires d < 10
    ensures '0' <= c <= '9'
  {
    ('0' as int + d) as char
  }

  /** `String(n)` for a non-negative integer: decimal digits, no leading zero. */
  function NatToString(n: nat): (r: string)
    decreases n
    ensures |r| >= 1
    ensures forall i :: 0 <= i < |r| ==> '0' <= r[i] <= '9'
    ensures |r| > 1 ==> r[0] != '0'
  {
    if n < 10 then [DigitChar(n)] else NatToString(n / 10) + [DigitChar(n % 10)]
  }

  /** The value of a digit in radix 36 (`'0'`..`'9'`, then letters of either case);
      36 for a character that is no digit at all. */
  function DigitValue(c: char): (v: nat)
    ensures v <= 36
    ensures '0' <= c <= '9' ==> v == c as int - '0' as int
  {
    if '0' <= c <= '9' then c as int - '0' as int
    else if 'a' <= c <= 'z' then c as int - 'a' as int + 10
    else if 'A' <= c <= 'Z' then c as int - 'A' as int + 10
    else 36
  }

  /** Length of the longest prefix of `s` made of digits of `radix`. */
  function DigitRun(s: string, radix: nat): (n: nat)
    ensures n <= |s|
    ensures forall i :: 0 <= i < n ==> DigitValue(s[i]) < radix
    ensures n < |s| ==> DigitValue(s[n]) >= radix
  {
    if s == [] || DigitValue(s[0]) >= radix then 0 else 1 + DigitRun(s[1..], radix)
  }

  /** The number a run of digits denotes, most significant digit first. */
  function DigitsValue(ds: string, radix: nat): nat {
    if ds == [] then 0 else DigitsValue(ds[..|ds| - 1], radix) * radix + DigitValue(ds[|ds| - 1])
  }

  function ParseMagnitude(s: string, radix: nat): (r: Option<nat>)
    ensures r.None? <==> (s == [] || DigitValue(s[0]) >= radix)
  {
    var n := DigitRun(s, radix);
    if n == 0 then None else Some(DigitsValue(s[..n], radix))
  }

  /** A `0x` or `0X` prefix, which makes `parseInt` read hexadecimal. */
  predicate HasHexPrefix(u: string) {
    |u| >= 2 && u[0] == '0' && (u[1] == 'x' || u[1] == 'X')
  }

  /** The unsigned part of `parseInt`: hexadecimal after a `0x` prefix, decimal otherwise. */
  function ParseUnsigned(u: string): Option<nat> {
    if HasHexPrefix(u) then ParseMagnitude(u[2..], 16) else ParseMagnitude(u, 10)
  }

  /** The global `parseInt(s)` with no radix argument: leading whitespace is skipped,
      one sign is read, a `0x`/`0X` prefix selects hexadecimal, and the longest run of
      digits that follows is the value. `None` stands for `NaN` (no digit at all). */
  function ParseInt(s: string): (r: Option<int>)
    ensures TrimStart(s) == [] ==> r.None?
    ensures r.Some? && r.value < 0 ==> TrimStart(s)[0] == '-'
    ensures var t := TrimStart(s); t != [] && t[0] != '-' && t[0] != '+' && DigitValue(t[0]) >= 10 ==> r.None?
  {
    var t := TrimStart(s);
    var negative := t != [] && t[0] == '-';
    var u := if t != [] && (t[0] == '-' || t[0] == '+') then t[1..] else t;
    match ParseUnsigned(u)
    case None => None
    case Some(m) =>
      var v: int := if negative then 0 - (m as int) else m as int;
      Some(v)
  }

  lemma {:induction false} DigitsValueOfNatToString(n: nat)
    ensures DigitsValue(NatToString(n), 10) == n
    decreases n
  {
    var r := NatToString(n);
    if n >= 10 {
      DigitsValueOfNatToString(n / 10);
      assert r[..|r| - 1] == NatToString(n / 10);
    }
  }

  /** The digit run of `ds + rest` is `ds` when `rest` does not begin with a digit. */
  lemma {:induction false} DigitRunOfDigitsThen(ds: string, rest: string, radix: nat)
    requires forall i :: 0 <= i < |ds| ==> DigitValue(ds[i]) < radix
    requires rest == [] || DigitValue(rest[0]) >= radix
    ensures DigitRun(ds + rest, radix) == |ds|
  {
    if ds != [] {
      assert (ds + rest)[1..] == ds[1..] + rest;
      DigitRunOfDigitsThen(ds[1..], rest, radix);
    }
  }

  /** `parseInt(String(n) + rest) === n` when `rest` is empty or starts with a space:
      a printed count reads back as the count, whatever text follows it. */
  lemma ParseIntOfNatToStringThen(n: nat, rest: string)
    requires rest == [] || rest[0] == ' '
    ensures ParseInt(NatToString(n) + rest) == Some(n)
  {
    var r := NatToString(n);
    var s := r + rest;
    assert s[0] == r[0];
    assert !HasHexPrefix(s) by {
      if |r| == 1 && rest != [] {
        assert s[1] == ' ';
      } else if |r| >= 2 {
        assert s[1] == r[1];
      }
    }
    MagnitudeOfNatToStringThen(n, rest);
    ParseIntOfDigitLed(s, n);
  }

  /** The decimal magnitude of a printed number followed by a non-digit is the number. */
  lemma MagnitudeOfNatToStringThen(n: nat, rest: string)
    requires rest == [] || rest[0] == ' '
    ensures ParseMagnitude(NatToString(n) + rest, 10) == Some(n)
  {
    var r := NatToString(n);
    var s := r + rest;
    DigitRunOfDigitsThen(r, rest, 10);
    assert s[..|r|] == r;
    DigitsValueOfNatToString(n);
  }

  /** A string that starts with a digit other than a hexadecimal prefix parses as its
      decimal magnitude. */
  lemma ParseIntOfDigitLed(s: string, v: nat)
    requires s != [] && '0' <= s[0] <= '9' && !HasHexPrefix(s)
    requires ParseMagnitude(s, 10) == Some(v)
    ensures ParseInt(s) == Some(v)
  {
    assert !IsWhitespace(s[0]);
    assert TrimStart(s) == s;
    assert ParseUnsigned(s) == Some(v);
  }

  /** `parseInt(String(n)) === n`: reading back a printed count gives the count. */
  lemma ParseIntOfNatToString(n: nat)
    ensures ParseInt(NatToString(n)) == Some(n)
  {
    ParseIntOfNatToStringThen(n, []);
    assert NatToString(n) + [] == NatToString(n);
  }
}
