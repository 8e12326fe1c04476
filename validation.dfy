/**
 * The string checks of the request schemas: `z.string().email()` and
 * `z.string().url()`. The email check follows zod's email pattern
 * `^(?!\.)(?!.*\.\.)([A-Z0-9_'+\-\.]*)[A-Z0-9_+-]@([A-Z0-9][A-Z0-9\-]*\.)+[A-Z]{2,}$`
 * (case-insensitive); the URL check is a simplified WHATWG scheme test.
 */
module Validation {
  import opened Wrappers
  import opened Strings

  predicate IsAsciiLetter(c: char) { 'a' <= c <= 'z' || 'A' <= c <= 'Z' }

  predicate IsAsciiDigit(c: char) { '0' <= c <= '9' }

  predicate IsAlnum(c: char) { IsAsciiLetter(c) || IsAsciiDigit(c) }

  /** A label of a domain name: an alphanumeric, then alphanumerics and hyphens. */
  predicate IsLabel(s: string)
  {
    |s| >= 1 && IsAlnum(s[0]) && forall i :: 0 <= i < |s| ==> IsAlnum(s[i]) || s[i] == '-'
  }

  /** The top-level domain: two or more letters. */
  predicate IsTld(s: string)
  {
    |s| >= 2 && forall i :: 0 <= i < |s| ==> IsAsciiLetter(s[i])
  }

  /** One or more labels, each followed by a dot, then a top-level domain. */
  predicate IsDomain(d: string)
    decreases |d|
  {
    match IndexOf(d, ".")
    case None => false
    case Some(i) =>
      IsLabel(d[..i]) && (IsTld(d[i + 1..]) || IsDomain(d[i + 1..]))
  }

  /** The part before the `@`: characters from `A-Z0-9_'+-.`, the last one not `'` or `.`. */
  predicate IsLocalPart(s: string)
  {
    && |s| >= 1
    && (forall i :: 0 <= i < |s| ==> IsAlnum(s[i]) || s[i] in "_'+-.")
    && (IsAlnum(s[|s| - 1]) || s[|s| - 1] in "_+-")
  }

  /** `z.string().email()`. */
  predicate IsEmail(s: string)
  {
    && !StartsWith(s, ".")
    && !Contains(s, "..")
    && match IndexOf(s, "@")
       case None => false
       case Some(i) => IsLocalPart(s[..i]) && IsDomain(s[i + 1..])
  }

  /** A URL scheme: a letter, then letters, digits, `+`, `-` or `.`. */
  predicate IsScheme(s: string)
  {
    |s| >= 1 && IsAsciiLetter(s[0])
    && forall i :: 0 <= i < |s| ==> IsAlnum(s[i]) || s[i] in "+-."
  }

  /** Schemes the URL standard calls special, which need a host. */
  predicate IsSpecialScheme(s: string)
  {
    ToLower(s) in ["http", "https", "ws", "wss", "ftp"]
  }

  /** The text after leading slashes and backslashes. */
  function StripSlashes(s: string): (r: string)
    ensures |r| <= |s| && r == s[|s| - |r|..]
    ensures r == [] || (r[0] != '/' && r[0] != '\\')
  {
    if s != [] && (s[0] == '/' || s[0] == '\\') then StripSlashes(s[1..]) else s
  }

  /** `z.string().url()`: a scheme, a colon and, for a special scheme, a non-empty host. */
  predicate IsUrl(s: string)
  {
    match IndexOf(s, ":")
    case None => false
    case Some(i) =>
      IsScheme(s[..i])
      && (IsSpecialScheme(s[..i]) ==> StripSlashes(s[i + 1..]) != "")
  }
}
