/**
 * The JavaScript string methods the routes rely on: `startsWith`,
 * `includes`, `indexOf`, `replace` with a string pattern, and
 * `toLowerCase` restricted to ASCII letters.
 */
module Strings {
  import opened Wrappers

  /** `s.startsWith(prefix)`. */
  predicate StartsWith(s: string, prefix: string)
  {
    |prefix| <= |s| && s[..|prefix|] == prefix
  }

  /** `pat` occurs in `s` starting at position `j`. */
  predicate OccursAt(s: string, j: nat, pat: string)
  {
    j + |pat| <= |s| && s[j..j + |pat|] == pat
  }

  /** `s.indexOf(pat)` when the result is not -1: the first position where `pat` occurs. */
  function IndexOf(s: string, pat: string): (r: Option<nat>)
    ensures r.Some? ==> OccursAt(s, r.value, pat)
    ensures r.Some? ==> forall j: nat :: j < r.value ==> !OccursAt(s, j, pat)
    ensures r.None? ==> forall j: nat :: !OccursAt(s, j, pat)
    decreases |s|
  {
    if StartsWith(s, pat) then Some(0)
    else if s == [] then None
    else
      assert forall j: nat :: OccursAt(s, j + 1, pat) <==> OccursAt(s[1..], j, pat) by {
        forall j: nat ensures OccursAt(s, j + 1, pat) <==> OccursAt(s[1..], j, pat) {
          if j + 1 + |pat| <= |s| {
            var a, b := s[j + 1..j + 1 + |pat|], s[1..][j..j + |pat|];
            forall k | 0 <= k < |pat| ensures a[k] == b[k] {
            }
            assert a == b;
          }
        }
      }
      match IndexOf(s[1..], pat)
      case None =>
        assert forall j: nat :: !OccursAt(s, j, pat) by {
          forall j: nat ensures !OccursAt(s, j, pat) {
            if j > 0 {
              assert !OccursAt(s[1..], j - 1, pat);
            }
          }
        }
        None
      case Some(i) =>
        assert forall j: nat :: j < i + 1 ==> !OccursAt(s, j, pat) by {
          forall j: nat | j < i + 1 ensures !OccursAt(s, j, pat) {
            if j > 0 {
              assert !OccursAt(s[1..], j - 1, pat);
            }
          }
        }
        Some(i + 1)
  }

  /** `s.includes(sub)`. */
  predicate Contains(s: string, sub: string)
  {
    IndexOf(s, sub).Some?
  }

  /** A string that holds `sub` at some position contains it. */
  lemma ContainsAt(s: string, sub: string, i: nat)
    requires OccursAt(s, i, sub)
    ensures Contains(s, sub)
  {
  }

  /** A string that starts with `sub` contains it. */
  lemma ContainsPrefix(s: string, sub: string)
    requires StartsWith(s, sub)
    ensures Contains(s, sub)
  {
    assert OccursAt(s, 0, sub);
  }

  /** `s.replace(pat, rep)` with a string pattern: only the first occurrence is replaced. */
  function ReplaceFirst(s: string, pat: string, rep: string): (r: string)
    ensures StartsWith(s, pat) ==> r == rep + s[|pat|..]
    ensures (forall j: nat :: !OccursAt(s, j, pat)) ==> r == s
  {
    match IndexOf(s, pat)
    case None => s
    case Some(i) => s[..i] + rep + s[i + |pat|..]
  }

  /** Removing a leading occurrence of `pat` leaves exactly what follows it. */
  lemma ReplaceLeading(pat: string, rest: string)
    ensures ReplaceFirst(pat + rest, pat, "") == rest
  {
    var s := pat + rest;
    assert StartsWith(s, pat) by { assert s[..|pat|] == pat; }
    assert IndexOf(s, pat) == Some(0);
    assert s[|pat|..] == rest;
  }

  /** Without an occurrence of `pat`, replacing it changes nothing. */
  lemma ReplaceAbsent(s: string, pat: string, rep: string)
    requires !Contains(s, pat)
    ensures ReplaceFirst(s, pat, rep) == s
  {
  }

  /** `c.toLowerCase()` for an ASCII letter; every other character is left as it is. */
  function LowerChar(c: char): (d: char)
    ensures 'A' <= c <= 'Z' ==> 'a' <= d <= 'z'
    ensures !('A' <= c <= 'Z') ==> d == c
  {
    if 'A' <= c <= 'Z' then (c as int - 'A' as int + 'a' as int) as char else c
  }

  /** `s.toLowerCase()` on the ASCII letters of `s`. */
  function ToLower(s: string): (r: string)
    ensures |r| == |s|
    ensures forall i :: 0 <= i < |s| ==> r[i] == LowerChar(s[i])
    ensures forall i :: 0 <= i < |r| ==> !('A' <= r[i] <= 'Z')
  {
    if s == [] then [] else [LowerChar(s[0])] + ToLower(s[1..])
  }

  /** Lowercasing twice is lowercasing once. */
  lemma ToLowerIdempotent(s: string)
    ensures ToLower(ToLower(s)) == ToLower(s)
  {
    var once := ToLower(s);
    assert forall i :: 0 <= i < |once| ==> LowerChar(once[i]) == once[i];
  }

  /** The units of a character in UTF-16, the encoding JavaScript strings count in: two above U+FFFF. */
  function Utf16Units(c: char): nat
  {
    if c as int > 0xFFFF then 2 else 1
  }

  /** `s.length` in JavaScript: the number of UTF-16 code units, which is what zod's `min` and `length` compare. */
  function Utf16Length(s: string): (n: nat)
    ensures |s| <= n <= 2 * |s|
    ensures n == 0 <==> s == []
  {
    if s == [] then 0 else Utf16Units(s[0]) + Utf16Length(s[1..])
  }

  /** Outside the astral planes the JavaScript length is the number of characters. */
  lemma {:induction false} Utf16LengthBasic(s: string)
    requires forall i :: 0 <= i < |s| ==> s[i] as int <= 0xFFFF
    ensures Utf16Length(s) == |s|
  {
    if s != [] {
      Utf16LengthBasic(s[1..]);
    }
  }

  /** Three emoji make a JavaScript string of length six. */
  lemma ThreeEmojiAreSixUnits()
    ensures Utf16Length("\U{1F600}\U{1F600}\U{1F600}") == 6
  {
    var e := "\U{1F600}\U{1F600}\U{1F600}";
    assert e[1..][1..][1..] == [];
  }
}
