/** Character and prefix tests used by the navigation menu.

    The menu tests strings against two anchored regular expressions:
    `/^settings\.integration/` (an exact prefix) and `/^https?:\/\//i`
    (a prefix compared without regard to letter case). The exact prefix is
    Dafny's sequence-prefix operator `p <= s`; the case-insensitive one is
    `StartsWithIgnoringCase` below. Every character of the patterns is ASCII,
    and a JavaScript `i` match without the `u` flag never lets a non-ASCII
    character match an ASCII one, so comparing up to ASCII case is exact. */
module Text {

  /** Upper-cases an ASCII letter; every other character is returned unchanged. */
  function UpperAscii(c: char): char {
    if 'a' <= c <= 'z' then (c as int - 32) as char else c
  }

  /** Lower-cases an ASCII letter; every other character is returned unchanged. */
  function LowerAscii(c: char): char {
    if 'A' <= c <= 'Z' then (c as int + 32) as char else c
  }

  /** Two characters are equal up to ASCII letter case. */
  predicate SameIgnoringCase(a: char, b: char) {
    UpperAscii(a) == UpperAscii(b)
  }

  /** `s` begins with `p`, character by character up to ASCII letter case,
      scanning from the left as an anchored regular expression does. */
  predicate StartsWithIgnoringCase(s: string, p: string)
    decreases p
  {
    p == [] || (s != [] && SameIgnoringCase(s[0], p[0]) && StartsWithIgnoringCase(s[1..], p[1..]))
  }

  /** Applies `f` to every character of `s`. */
  function MapChars(s: string, f: char -> char): (r: string)
    ensures |r| == |s|
    ensures forall i :: 0 <= i < |s| ==> r[i] == f(s[i])
  {
    seq(|s|, i requires 0 <= i < |s| => f(s[i]))
  }

  /** The scan agrees with the positional reading: `s` is at least as long
      as `p` and each of its first `|p|` characters matches the one of `p`. */
  lemma {:induction false} StartsWithIgnoringCaseIff(s: string, p: string)
    ensures StartsWithIgnoringCase(s, p) <==>
            |p| <= |s| && forall i :: 0 <= i < |p| ==> SameIgnoringCase(s[i], p[i])
    decreases p
  {
    if p != [] && s != [] {
      StartsWithIgnoringCaseIff(s[1..], p[1..]);
      if |p| <= |s| && forall i :: 0 <= i < |p| ==> SameIgnoringCase(s[i], p[i]) {
        forall i | 0 <= i < |p| - 1 ensures SameIgnoringCase(s[1..][i], p[1..][i]) {
          assert SameIgnoringCase(s[i + 1], p[i + 1]);
        }
      }
      if StartsWithIgnoringCase(s, p) {
        forall i | 0 <= i < |p| ensures SameIgnoringCase(s[i], p[i]) {
          if i > 0 {
            assert SameIgnoringCase(s[1..][i - 1], p[1..][i - 1]);
          }
        }
      }
    }
  }

  /** Changing the ASCII letter case of the subject never changes the
      outcome of the test, in either direction. (JavaScript's own
      `toUpperCase` also maps some non-ASCII letters, such as the long s,
      to ASCII; that mapping is not this one.) */
  lemma CaseOfSubjectIrrelevant(s: string, p: string)
    ensures StartsWithIgnoringCase(MapChars(s, UpperAscii), p) == StartsWithIgnoringCase(s, p)
    ensures StartsWithIgnoringCase(MapChars(s, LowerAscii), p) == StartsWithIgnoringCase(s, p)
  {
    var up, low := MapChars(s, UpperAscii), MapChars(s, LowerAscii);
    StartsWithIgnoringCaseIff(s, p);
    StartsWithIgnoringCaseIff(up, p);
    StartsWithIgnoringCaseIff(low, p);
    forall i | 0 <= i < |s|
      ensures UpperAscii(up[i]) == UpperAscii(s[i])
      ensures UpperAscii(low[i]) == UpperAscii(s[i])
    {
    }
  }
}
