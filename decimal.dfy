/**
 * Decimal numerals: `n.toString()` for a natural number, the value of a
 * string of digits, and JavaScript's `parseInt` with radix 10.
 */
module Decimal {
  import opened Wrappers

  predicate IsDigit(c: char) { '0' <= c <= '9' }

  /** The decimal digit character for `d`. */
  function DigitChar(d: nat): (c: char)
    requires d < 10
    ensures '0' <= c <= '9'
    ensures c as int - '0' as int == d
  {
    ('0' as int + d) as char
  }

  /** `n.toString()` for a non-negative integer. */
  function DecimalString(n: nat): (s: string)
    ensures |s| >= 1
    ensures forall i :: 0 <= i < |s| ==> '0' <= s[i] <= '9'
    decreases n
  {
    if n < 10 then [DigitChar(n)] else DecimalString(n / 10) + [DigitChar(n % 10)]
  }

  /** The number a string of decimal digits denotes. */
  function DecimalValue(s: string): nat
    requires forall i :: 0 <= i < |s| ==> '0' <= s[i] <= '9'
  {
    if s == [] then 0
    else DecimalValue(s[..|s| - 1]) * 10 + (s[|s| - 1] as int - '0' as int)
  }

  /** Reading back the printed form of `n` gives `n`. */
  lemma {:induction false} DecimalRoundTrip(n: nat)
    ensures DecimalValue(DecimalString(n)) == n
  {
    var s := DecimalString(n);
    if n >= 10 {
      DecimalRoundTrip(n / 10);
      assert s[..|s| - 1] == DecimalString(n / 10);
    }
  }

  function Pow10(k: nat): nat
  {
    if k == 0 then 1 else 10 * Pow10(k - 1)
  }

  /** A number in [10^(k-1), 10^k) prints with exactly k digits, the first not '0'. */
  lemma {:induction false} DecimalShape(n: nat, k: nat)
    requires k >= 1 && Pow10(k - 1) <= n < Pow10(k)
    ensures |DecimalString(n)| == k
    ensures DecimalString(n)[0] != '0'
  {
    if k == 1 {
      assert n < 10;
    } else {
      assert Pow10(k - 1) == 10 * Pow10(k - 2);
      assert Pow10(k - 2) <= n / 10 < Pow10(k - 1);
      DecimalShape(n / 10, k - 1);
      assert DecimalString(n)[0] == DecimalString(n / 10)[0];
    }
  }

  /** The length of the run of digits that `s` starts with. */
  function DigitRun(s: string): (n: nat)
    ensures n <= |s|
    ensures forall i :: 0 <= i < n ==> IsDigit(s[i])
    ensures n < |s| ==> !IsDigit(s[n])
  {
    if s == [] || !IsDigit(s[0]) then 0 else 1 + DigitRun(s[1..])
  }

  /** The characters `parseInt` skips before the number: the ASCII white space. */
  predicate IsSpace(c: char)
  {
    c == ' ' || c == '\t' || c == '\n' || c == '\r' || c == '\U{000B}' || c == '\U{000C}'
  }

  function TrimStart(s: string): (r: string)
    ensures |r| <= |s| && (r != [] ==> !IsSpace(r[0]))
    ensures s != [] && !IsSpace(s[0]) ==> r == s
  {
    if s != [] && IsSpace(s[0]) then TrimStart(s[1..]) else s
  }

  /** The number the leading run of digits denotes; None when `s` does not start with a digit. */
  function ParseDigits(s: string): (r: Option<nat>)
    ensures r.Some? <==> s != [] && IsDigit(s[0])
  {
    var n := DigitRun(s);
    if n == 0 then None else Some(DecimalValue(s[..n]))
  }

  /** An optional sign, then digits. */
  function ParseSigned(t: string): Option<int>
  {
    if t != [] && t[0] == '-' then
      match ParseDigits(t[1..])
      case None => None
      case Some(v) => Some(-(v as int))
    else if t != [] && t[0] == '+' then
      match ParseDigits(t[1..])
      case None => None
      case Some(v) => Some(v)
    else
      match ParseDigits(t)
      case None => None
      case Some(v) => Some(v)
  }

  /**
   * `parseInt(s)`: leading white space, an optional sign, then the longest
   * run of digits; anything after it is ignored. None stands for `NaN`,
   * which is the result when there is no digit.
   */
  function ParseInt(s: string): (r: Option<int>)
    ensures var t := TrimStart(s);
      r.Some? <==> (t != [] && IsDigit(t[0])) || (|t| >= 2 && (t[0] == '-' || t[0] == '+') && IsDigit(t[1]))
    ensures r.Some? && r.value < 0 ==> TrimStart(s)[0] == '-'
  {
    ParseSigned(TrimStart(s))
  }

  /** The digits of `n.toString()` denote `n`, whatever non-digit follows them. */
  lemma ParseDigitsOf(n: nat, rest: string)
    requires rest == [] || !IsDigit(rest[0])
    ensures ParseDigits(DecimalString(n) + rest) == Some(n)
  {
    var d := DecimalString(n);
    DigitRunOf(d, rest);
    assert (d + rest)[..|d|] == d;
    DecimalRoundTrip(n);
  }

  /** The sign forms `parseInt` accepts in front of digits: none, a minus sign, white space and a plus sign. */
  lemma SignForms(t: string, v: nat)
    requires ParseDigits(t) == Some(v)
    ensures ParseInt(t) == Some(v)
    ensures ParseInt("-" + t) == Some(-(v as int))
    ensures ParseInt(" +" + t) == Some(v)
  {
    assert t[0] != '-' && t[0] != '+' && !IsSpace(t[0]);
    var minus := "-" + t;
    assert minus[0] == '-' && minus[1..] == t;
    var plus := " +" + t;
    assert plus[0] == ' ' && plus[1..] == "+" + t;
    assert TrimStart(plus) == "+" + t;
    assert ("+" + t)[1..] == t;
  }

  /** `parseInt` reads back `n.toString()`, with or without a sign, whatever non-digit follows. */
  lemma ParseIntReadsDecimal(n: nat, rest: string)
    requires rest == [] || !IsDigit(rest[0])
    ensures ParseInt(DecimalString(n) + rest) == Some(n)
    ensures ParseInt("-" + (DecimalString(n) + rest)) == Some(-(n as int))
    ensures ParseInt(" +" + (DecimalString(n) + rest)) == Some(n)
  {
    ParseDigitsOf(n, rest);
    SignForms(DecimalString(n) + rest, n);
  }

  /** A string of digits followed by a non-digit: the run is exactly the digits. */
  lemma {:induction false} DigitRunOf(d: string, rest: string)
    requires forall i :: 0 <= i < |d| ==> IsDigit(d[i])
    requires rest == [] || !IsDigit(rest[0])
    ensures DigitRun(d + rest) == |d|
  {
    if d != [] {
      assert (d + rest)[1..] == d[1..] + rest;
      DigitRunOf(d[1..], rest);
    } else {
      assert d + rest == rest;
    }
  }

  /** Without a digit after the sign, `parseInt` gives `NaN`. */
  lemma ParseIntNaN()
    ensures ParseInt("") == None && ParseInt("abc") == None && ParseInt("-") == None && ParseInt(" x1") == None
  {
    assert TrimStart(" x1") == " x1"[1..];
  }
}
