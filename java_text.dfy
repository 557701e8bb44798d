/**
 * The few java.lang.String and java.util.regex behaviours the audit pipeline
 * relies on, stated over `string` (a sequence of characters).
 */
module JavaText {
  import opened Wrappers

  /** A character matched by `\s` in java.util.regex (no UNICODE_CHARACTER_CLASS flag):
      space, tab, line feed, vertical tab, form feed, carriage return. */
  predicate IsRegexSpace(c: char) {
    c == ' ' || c == '\t' || c == '\n' || c == '\U{B}' || c == '\U{C}' || c == '\r'
  }

  /** A character removed by String.trim(): any code point up to U+0020. */
  predicate IsBlank(c: char) {
    c <= ' '
  }

  /** Java's string conversion of a possibly-null String, as `+` performs it. */
  function JavaString(s: Option<string>): (r: string)
    ensures s.Some? ==> r == s.value
    ensures s.None? ==> r == "null"
  {
    s.GetOr("null")
  }

  /** Length of the longest prefix of `s` made of `\s` characters. */
  function SpaceRun(s: string): (n: nat)
    ensures n <= |s|
    ensures forall i :: 0 <= i < n ==> IsRegexSpace(s[i])
    ensures n < |s| ==> !IsRegexSpace(s[n])
  {
    if |s| > 0 && IsRegexSpace(s[0]) then 1 + SpaceRun(s[1..]) else 0
  }

  /** Length of the longest prefix of `s` made of blanks. */
  function LeadingBlanks(s: string): (n: nat)
    ensures n <= |s|
    ensures forall i :: 0 <= i < n ==> IsBlank(s[i])
    ensures n < |s| ==> !IsBlank(s[n])
  {
    if |s| > 0 && IsBlank(s[0]) then 1 + LeadingBlanks(s[1..]) else 0
  }

  /** Length of the longest suffix of `s` made of blanks. */
  function TrailingBlanks(s: string): (n: nat)
    ensures n <= |s|
    ensures forall i :: |s| - n <= i < |s| ==> IsBlank(s[i])
    ensures n < |s| ==> !IsBlank(s[|s| - 1 - n])
  {
    if |s| > 0 && IsBlank(s[|s| - 1]) then 1 + TrailingBlanks(s[..|s| - 1]) else 0
  }

  /** String.trim(): the slice of `s` between the first and the last non-blank character. */
  function Trim(s: string): (r: string)
    ensures |r| <= |s|
    ensures |r| > 0 ==> !IsBlank(r[0]) && !IsBlank(r[|r| - 1])
    ensures LeadingBlanks(s) + |r| <= |s| && r == s[LeadingBlanks(s)..LeadingBlanks(s) + |r|]
    ensures forall i :: LeadingBlanks(s) + |r| <= i < |s| ==> IsBlank(s[i])
  {
    var a := LeadingBlanks(s);
    var t := s[a..];
    var r := t[..|t| - TrailingBlanks(t)];
    assert r == s[a..a + |r|];
    r
  }

  lemma {:induction false} TrimIdempotent(s: string)
    ensures Trim(Trim(s)) == Trim(s)
  {
    var r := Trim(s);
    assert LeadingBlanks(r) == 0;
    assert TrailingBlanks(r[LeadingBlanks(r)..]) == 0;
    assert r[0..] == r;
  }

  /** Character.toLowerCase restricted to the ASCII letters. */
  function LowerChar(c: char): char {
    if 'A' <= c <= 'Z' then (c as int + 32) as char else c
  }

  /** String.toLowerCase, letter by letter (ASCII case mapping). */
  function ToLowerCase(s: string): (r: string)
    ensures |r| == |s|
    ensures forall i :: 0 <= i < |s| ==> r[i] == LowerChar(s[i])
  {
    seq(|s|, i requires 0 <= i < |s| => LowerChar(s[i]))
  }

  /** String.equalsIgnoreCase for non-null arguments (ASCII case mapping). */
  predicate EqualsIgnoreCase(a: string, b: string) {
    |a| == |b| && forall i :: 0 <= i < |a| ==> LowerChar(a[i]) == LowerChar(b[i])
  }

  /** Two strings are equal ignoring case exactly when they lower-case to the same string. */
  lemma EqualsIgnoreCaseIsLowerEquality(a: string, b: string)
    ensures EqualsIgnoreCase(a, b) <==> ToLowerCase(a) == ToLowerCase(b)
  {
    if ToLowerCase(a) == ToLowerCase(b) {
      assert |a| == |b|;
      forall i | 0 <= i < |a| ensures LowerChar(a[i]) == LowerChar(b[i]) {
        assert ToLowerCase(a)[i] == ToLowerCase(b)[i];
      }
    }
  }

  lemma ToLowerCaseIdempotent(s: string)
    ensures ToLowerCase(ToLowerCase(s)) == ToLowerCase(s)
  {
  }

  /**
   * `out` arises from `src` by deleting some blank characters and nothing else
   * (every character of `out` comes from `src`, in order, and every character
   * of `src` that is missing from `out` is blank).
   */
  predicate DeletesOnlyBlanks(out: string, src: string)
    decreases |src|
  {
    if |src| == 0 then |out| == 0
    else
      || (|out| > 0 && out[0] == src[0] && DeletesOnlyBlanks(out[1..], src[1..]))
      || (IsBlank(src[0]) && DeletesOnlyBlanks(out, src[1..]))
  }

  lemma {:induction false} DeletesOnlyBlanksReflexive(s: string)
    ensures DeletesOnlyBlanks(s, s)
    decreases |s|
  {
    if |s| > 0 {
      DeletesOnlyBlanksReflexive(s[1..]);
    }
  }

  lemma {:induction false} DeletesOnlyBlanksShorter(out: string, src: string)
    requires DeletesOnlyBlanks(out, src)
    ensures |out| <= |src|
    decreases |src|
  {
    if |src| > 0 {
      if |out| > 0 && out[0] == src[0] && DeletesOnlyBlanks(out[1..], src[1..]) {
        DeletesOnlyBlanksShorter(out[1..], src[1..]);
      } else {
        DeletesOnlyBlanksShorter(out, src[1..]);
      }
    }
  }

  lemma {:induction false} DeletesOnlyBlanksTransitive(a: string, b: string, c: string)
    requires DeletesOnlyBlanks(a, b) && DeletesOnlyBlanks(b, c)
    ensures DeletesOnlyBlanks(a, c)
    decreases |c|
  {
    if |c| == 0 {
      assert |b| == 0;
    } else if |b| > 0 && b[0] == c[0] && DeletesOnlyBlanks(b[1..], c[1..]) {
      if |a| > 0 && a[0] == b[0] && DeletesOnlyBlanks(a[1..], b[1..]) {
        DeletesOnlyBlanksTransitive(a[1..], b[1..], c[1..]);
      } else {
        DeletesOnlyBlanksTransitive(a, b[1..], c[1..]);
      }
    } else {
      DeletesOnlyBlanksTransitive(a, b, c[1..]);
    }
  }

  /** Dropping a blank prefix and a blank suffix deletes only blanks. */
  lemma {:induction false} SliceDeletesOnlyBlanks(s: string, a: nat, b: nat)
    requires a <= b <= |s|
    requires forall i :: 0 <= i < a ==> IsBlank(s[i])
    requires forall i :: b <= i < |s| ==> IsBlank(s[i])
    ensures DeletesOnlyBlanks(s[a..b], s)
    decreases |s|
  {
    if a > 0 {
      SliceDeletesOnlyBlanks(s[1..], a - 1, b - 1);
      assert s[1..][a - 1..b - 1] == s[a..b];
    } else if b < |s| {
      if |s[..b]| > 0 {
        SliceDeletesOnlyBlanks(s[1..], 0, b - 1);
        assert s[1..][0..b - 1] == s[..b][1..];
      } else {
        SliceDeletesOnlyBlanks(s[1..], 0, 0);
      }
    } else {
      assert s[a..b] == s;
      DeletesOnlyBlanksReflexive(s);
    }
  }

  lemma TrimDeletesOnlyBlanks(s: string)
    ensures DeletesOnlyBlanks(Trim(s), s)
  {
    var r := Trim(s);
    var a := LeadingBlanks(s);
    SliceDeletesOnlyBlanks(s, a, a + |r|);
  }
}
