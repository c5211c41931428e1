/**
 * The GLib string routines the selector applies to file names, file lines and
 * satellite names, stated on Dafny strings. A C string ends at its first NUL
 * character; where that matters (the comparator) the model says so.
 */
module GlibText {

  // ---------------------------------------------------------------------------
  // White space and stripping (g_strchug, g_strchomp, g_strstrip)
  // ---------------------------------------------------------------------------

  /** White space as g_ascii_isspace classifies it: space, tab, line feed,
      form feed and carriage return (vertical tab is not white space here). */
  predicate IsAsciiSpace(c: char) {
    c == ' ' || c == '\t' || c == '\n' || c == '\r' || c == '\U{000C}'
  }

  predicate AllSpace(s: string) {
    forall k :: 0 <= k < |s| ==> IsAsciiSpace(s[k])
  }

  /** Neither end of `s` is white space. */
  predicate TrimmedEnds(s: string) {
    s == [] || (!IsAsciiSpace(s[0]) && !IsAsciiSpace(s[|s| - 1]))
  }

  /** Leading white space removed (g_strchug). */
  function StripLeading(s: string): string {
    if |s| > 0 && IsAsciiSpace(s[0]) then StripLeading(s[1..]) else s
  }

  /** Trailing white space removed (g_strchomp). */
  function StripTrailing(s: string): string {
    if |s| > 0 && IsAsciiSpace(s[|s| - 1]) then StripTrailing(s[..|s| - 1]) else s
  }

  /** g_strchug leaves a suffix of `s`; what it cut off is white space and
      what remains does not start with white space. */
  lemma {:induction false} StripLeadingShape(s: string)
    ensures var r := StripLeading(s);
      && |r| <= |s| && r == s[|s| - |r|..]
      && AllSpace(s[..|s| - |r|])
      && (r == [] || !IsAsciiSpace(r[0]))
  {
    if |s| > 0 && IsAsciiSpace(s[0]) {
      StripLeadingShape(s[1..]);
      var r := StripLeading(s[1..]);
      assert s[..|s| - |r|] == [s[0]] + s[1..][..|s| - 1 - |r|];
    }
  }

  /** g_strchomp leaves a prefix of `s`; what it cut off is white space and
      what remains does not end with white space. */
  lemma {:induction false} StripTrailingShape(s: string)
    ensures var r := StripTrailing(s);
      && |r| <= |s| && r == s[..|r|]
      && AllSpace(s[|r|..])
      && (r == [] || !IsAsciiSpace(r[|r| - 1]))
  {
    if |s| > 0 && IsAsciiSpace(s[|s| - 1]) {
      StripTrailingShape(s[..|s| - 1]);
      var r := StripTrailing(s[..|s| - 1]);
      assert s[|r|..] == s[..|s| - 1][|r|..] + [s[|s| - 1]];
    }
  }

  /** `r` sits in `s` at position `i` with only white space around it. */
  predicate PaddedAt(s: string, r: string, i: int) {
    0 <= i <= |s| - |r| && s[i..i + |r|] == r && AllSpace(s[..i]) && AllSpace(s[i + |r|..])
  }

  /** Leading and trailing white space removed (g_strstrip, which is
      g_strchomp applied to the result of g_strchug). */
  function Strip(s: string): string {
    StripTrailing(StripLeading(s))
  }

  /** The stripped text is what lies between two white-space margins of `s`,
      and neither of its ends is white space. */
  lemma StripMargins(s: string)
    ensures TrimmedEnds(Strip(s))
    ensures PaddedAt(s, Strip(s), |s| - |StripLeading(s)|)
  {
    var l := StripLeading(s);
    var r := StripTrailing(l);
    StripLeadingShape(s);
    StripTrailingShape(l);
    var i := |s| - |l|;
    assert s[i..] == l;
    if r != [] {
      assert r[0] == l[0];
    }
    assert TrimmedEnds(r);
    assert s[i..i + |r|] == r by {
      assert s[i..i + |r|] == s[i..][..|r|];
    }
    assert s[i + |r|..] == l[|r|..] by {
      assert s[i + |r|..] == s[i..][|r|..];
    }
    assert PaddedAt(s, r, i);
  }

  lemma {:induction false} StripLeadingPadded(lead: string, t: string)
    requires AllSpace(lead)
    requires t == [] || !IsAsciiSpace(t[0])
    ensures StripLeading(lead + t) == t
  {
    if lead != [] {
      assert (lead + t)[1..] == lead[1..] + t;
      StripLeadingPadded(lead[1..], t);
    } else {
      assert lead + t == t;
    }
  }

  lemma {:induction false} StripTrailingPadded(t: string, trail: string)
    requires AllSpace(trail)
    requires t == [] || !IsAsciiSpace(t[|t| - 1])
    ensures StripTrailing(t + trail) == t
  {
    if trail != [] {
      var s := t + trail;
      assert s[..|s| - 1] == t + trail[..|trail| - 1];
      StripTrailingPadded(t, trail[..|trail| - 1]);
    } else {
      assert t + trail == t;
    }
  }

  /** Stripping gives back exactly the text between the white-space margins:
      a category file's first line "Weather\n" gives the label "Weather". */
  lemma {:induction false} StripPadded(lead: string, t: string, trail: string)
    requires AllSpace(lead) && AllSpace(trail)
    requires TrimmedEnds(t)
    ensures Strip(lead + t + trail) == t
  {
    if t == [] {
      assert lead + t + trail == lead + trail;
      assert AllSpace(lead + trail);
      StripLeadingPadded(lead + trail, []);
      assert lead + trail + [] == lead + trail;
    } else {
      assert lead + t + trail == lead + (t + trail);
      StripLeadingPadded(lead, t + trail);
      StripTrailingPadded(t, trail);
    }
  }

  /** Stripping twice is stripping once. */
  lemma StripIdempotent(s: string)
    ensures Strip(Strip(s)) == Strip(s)
  {
    var r := Strip(s);
    StripMargins(s);
    StripPadded([], r, []);
    assert [] + r + [] == r;
  }

  // ---------------------------------------------------------------------------
  // Substring test (g_strrstr (s, sub) != NULL) and g_strsplit (s, ".", 0)[0]
  // ---------------------------------------------------------------------------

  predicate OccursAt(s: string, sub: string, i: int) {
    0 <= i && i + |sub| <= |s| && s[i..i + |sub|] == sub
  }

  /** `sub` occurs somewhere in `s`: what the loader asks of g_strrstr,
      which only matters here through being non-NULL. */
  predicate HasSubstring(s: string, sub: string)
    decreases |s|
  {
    |sub| <= |s| && (s[..|sub|] == sub || (|s| > 0 && HasSubstring(s[1..], sub)))
  }

  /** HasSubstring is "occurs at some position", not "is a suffix". */
  lemma {:induction false} HasSubstringIff(s: string, sub: string)
    ensures HasSubstring(s, sub) <==> exists i :: OccursAt(s, sub, i)
  {
    if |sub| > |s| {
      assert forall i :: !OccursAt(s, sub, i);
    } else if s[..|sub|] == sub {
      assert OccursAt(s, sub, 0);
    } else {
      assert |s| > 0 && !OccursAt(s, sub, 0);
      var t := s[1..];
      HasSubstringIff(t, sub);
      assert HasSubstring(s, sub) == HasSubstring(t, sub);
      forall i | 0 <= i ensures OccursAt(t, sub, i) <==> OccursAt(s, sub, i + 1) {
        if i + |sub| <= |t| {
          assert t[i..i + |sub|] == s[i + 1..i + 1 + |sub|];
        }
      }
      if HasSubstring(t, sub) {
        var j :| OccursAt(t, sub, j);
        assert OccursAt(s, sub, j + 1);
      } else {
        forall i | OccursAt(s, sub, i) ensures OccursAt(t, sub, i - 1) {
          assert i - 1 >= 0;
        }
      }
    }
  }

  /** The text before the first '.', g_strsplit (s, ".", 0)[0]: the longest
      prefix of `s` without a dot. */
  function BeforeFirstDot(s: string): string {
    if |s| == 0 || s[0] == '.' then [] else [s[0]] + BeforeFirstDot(s[1..])
  }

  /** The part before the first dot is a prefix without a dot, followed by
      a dot unless it is the whole string. */
  lemma {:induction false} BeforeFirstDotShape(s: string)
    ensures var r := BeforeFirstDot(s);
      && |r| <= |s| && r == s[..|r|]
      && '.' !in r
      && (|r| < |s| ==> s[|r|] == '.')
  {
    if |s| > 0 && s[0] != '.' {
      BeforeFirstDotShape(s[1..]);
      assert BeforeFirstDot(s) == [s[0]] + BeforeFirstDot(s[1..]);
    }
  }

  /** The catalogue-number part of "25544.sat", or of "25544.sat.bak", is "25544". */
  lemma {:induction false} BeforeFirstDotOf(a: string, b: string)
    requires '.' !in a
    ensures BeforeFirstDot(a + "." + b) == a
  {
    if |a| > 0 {
      assert a[0] != '.';
      assert (a + "." + b)[1..] == a[1..] + "." + b;
      BeforeFirstDotOf(a[1..], b);
    } else {
      assert (a + "." + b)[0] == '.';
    }
  }

  // ---------------------------------------------------------------------------
  // Case-insensitive comparison (g_ascii_strcasecmp)
  // ---------------------------------------------------------------------------

  /** ASCII lower-casing: only 'A'..'Z' change. */
  function AsciiToLower(c: char): (l: char)
    ensures 'A' <= c <= 'Z' ==> 'a' <= l <= 'z' && l as int - c as int == 32
    ensures !('A' <= c <= 'Z') ==> l == c
  {
    if 'A' <= c <= 'Z' then (c as int + 32) as char else c
  }

  /** The character a C string shows at its start: its first one, or the
      terminating NUL. */
  function Head(s: string): char {
    if |s| == 0 then '\0' else s[0]
  }

  /** The C string `s` denotes: everything before its first NUL. */
  function CString(s: string): (r: string)
    ensures '\0' !in r
  {
    if |s| == 0 || s[0] == '\0' then [] else [s[0]] + CString(s[1..])
  }

  function LowerAll(s: string): (r: string)
    ensures |r| == |s|
  {
    if |s| == 0 then [] else [AsciiToLower(s[0])] + LowerAll(s[1..])
  }

  /** What g_ascii_strcasecmp compares: the C string, ASCII letters folded. */
  function CaseFolded(s: string): string {
    LowerAll(CString(s))
  }

  /**
   * g_ascii_strcasecmp: walk both strings while neither has reached its NUL;
   * at the first position where the lower-cased characters differ, return
   * their difference; if one string ends first, return the difference of the
   * raw characters at that position (one of them being the NUL).
   */
  function AsciiStrCaseCmp(s1: string, s2: string): int
    decreases |s1|
  {
    if Head(s1) != '\0' && Head(s2) != '\0' then
      var c1, c2 := AsciiToLower(s1[0]), AsciiToLower(s2[0]);
      if c1 != c2 then c1 as int - c2 as int else AsciiStrCaseCmp(s1[1..], s2[1..])
    else Head(s1) as int - Head(s2) as int
  }

  /** Swapping the arguments negates the result. */
  lemma {:induction false} CaseCmpAntisymmetric(a: string, b: string)
    ensures AsciiStrCaseCmp(b, a) == -AsciiStrCaseCmp(a, b)
  {
    if Head(a) != '\0' && Head(b) != '\0' && AsciiToLower(a[0]) == AsciiToLower(b[0]) {
      CaseCmpAntisymmetric(a[1..], b[1..]);
    }
  }

  /** The comparison is zero exactly when the names are equal ignoring ASCII case. */
  lemma {:induction false} CaseCmpZeroIff(a: string, b: string)
    ensures AsciiStrCaseCmp(a, b) == 0 <==> CaseFolded(a) == CaseFolded(b)
  {
    if Head(a) != '\0' && Head(b) != '\0' {
      var c1, c2 := AsciiToLower(a[0]), AsciiToLower(b[0]);
      assert CaseFolded(a) == [c1] + CaseFolded(a[1..]);
      assert CaseFolded(b) == [c2] + CaseFolded(b[1..]);
      if c1 != c2 {
        assert CaseFolded(a)[0] != CaseFolded(b)[0];
      } else {
        CaseCmpZeroIff(a[1..], b[1..]);
        if CaseFolded(a) == CaseFolded(b) {
          assert CaseFolded(a[1..]) == CaseFolded(a)[1..] == CaseFolded(b)[1..] == CaseFolded(b[1..]);
        }
      }
    } else if Head(a) != '\0' {
      assert CaseFolded(a) == [AsciiToLower(a[0])] + CaseFolded(a[1..]);
      assert CaseFolded(b) == [];
    } else if Head(b) != '\0' {
      assert CaseFolded(b) == [AsciiToLower(b[0])] + CaseFolded(b[1..]);
      assert CaseFolded(a) == [];
    } else {
      assert CaseFolded(a) == [] == CaseFolded(b);
    }
  }

  /** "Not after" is transitive, so the comparison is a total preorder and a
      list sorted by it is well defined up to names that compare equal. */
  lemma {:induction false} CaseCmpTransitive(a: string, b: string, c: string)
    requires AsciiStrCaseCmp(a, b) <= 0 && AsciiStrCaseCmp(b, c) <= 0
    ensures AsciiStrCaseCmp(a, c) <= 0
  {
    if Head(a) != '\0' && Head(b) != '\0' && Head(c) != '\0' {
      var la, lb, lc := AsciiToLower(a[0]), AsciiToLower(b[0]), AsciiToLower(c[0]);
      if la == lb && lb == lc {
        CaseCmpTransitive(a[1..], b[1..], c[1..]);
      }
    }
  }

  /** Examples of the ordering: "alpha" and "Alpha" tie, "Alpha" comes
      before "beta" and "beta" after "Alpha". */
  lemma CaseCmpExamples()
    ensures AsciiStrCaseCmp("alpha", "Alpha") == 0
    ensures AsciiStrCaseCmp("Alpha", "beta") < 0
    ensures AsciiStrCaseCmp("beta", "Alpha") > 0
  {
    CaseCmpZeroIff("alpha", "Alpha");
    assert CaseFolded("alpha") == "alpha";
    assert CaseFolded("Alpha") == "alpha";
    CaseCmpAntisymmetric("Alpha", "beta");
  }
}
