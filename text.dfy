/**
 * The string operations of Python that the address and column
 * normalisations are built from: str.replace, str.strip and str.lower.
 */
module Text {

  /** Python's str.isspace on a single character (the Unicode White_Space set
      Python uses, plus the four ASCII information separators). */
  predicate IsSpace(c: char) {
    || c == ' '
    || ('\t' <= c <= '\r')
    || ('\U{1C}' <= c <= '\U{1F}')
    || c == '\U{85}' || c == '\U{A0}' || c == '\U{1680}'
    || ('\U{2000}' <= c <= '\U{200A}')
    || c == '\U{2028}' || c == '\U{2029}' || c == '\U{202F}' || c == '\U{205F}'
    || c == '\U{3000}'
  }

  /** `pat` occurs in `s` starting at index k. */
  predicate OccursAt(s: string, pat: string, k: int) {
    0 <= k && k + |pat| <= |s| && s[k..k + |pat|] == pat
  }

  predicate Occurs(s: string, pat: string) {
    exists k :: 0 <= k <= |s| - |pat| && OccursAt(s, pat, k)
  }

  /** Python's replace: a left-to-right scan replacing non-overlapping occurrences of pat. */
  function ReplaceAll(s: string, pat: string, rep: string): (r: string)
    requires |pat| > 0
    ensures |rep| == |pat| ==> |r| == |s|
    decreases |s|
  {
    if |s| < |pat| then s
    else if s[..|pat|] == pat then rep + ReplaceAll(s[|pat|..], pat, rep)
    else [s[0]] + ReplaceAll(s[1..], pat, rep)
  }

  /** Every character of a replacement result comes from the input or from `rep`. */
  lemma {:induction false} ReplaceAllChars(s: string, pat: string, rep: string)
    requires |pat| > 0
    ensures forall c :: c in ReplaceAll(s, pat, rep) ==> c in s || c in rep
    decreases |s|
  {
    if |s| < |pat| {
    } else if s[..|pat|] == pat {
      ReplaceAllChars(s[|pat|..], pat, rep);
      assert forall c :: c in s[|pat|..] ==> c in s;
    } else {
      ReplaceAllChars(s[1..], pat, rep);
      assert forall c :: c in s[1..] ==> c in s;
    }
  }

  /** Replacing a single character by a string that does not contain it removes it. */
  lemma {:induction false} ReplaceRemovesChar(s: string, c: char, rep: string)
    requires c !in rep
    ensures c !in ReplaceAll(s, [c], rep)
    decreases |s|
  {
    if |s| < 1 {
    } else if s[..1] == [c] {
      ReplaceRemovesChar(s[1..], c, rep);
    } else {
      assert s[0] != c by { assert s[..1] == [s[0]]; }
      ReplaceRemovesChar(s[1..], c, rep);
    }
  }

  /** With nothing to replace, replace is the identity. */
  lemma {:induction false} ReplaceAbsent(s: string, pat: string, rep: string)
    requires |pat| > 0
    requires !Occurs(s, pat)
    ensures ReplaceAll(s, pat, rep) == s
    decreases |s|
  {
    if |s| < |pat| {
    } else {
      assert !OccursAt(s, pat, 0);
      assert !Occurs(s[1..], pat) by {
        forall k | OccursAt(s[1..], pat, k) ensures OccursAt(s, pat, k + 1) {
          assert s[1..][k..k + |pat|] == s[k + 1..k + 1 + |pat|];
        }
      }
      ReplaceAbsent(s[1..], pat, rep);
    }
  }

  /** A single-character pattern is absent exactly when the character is. */
  lemma CharNotOccurs(s: string, c: char)
    requires c !in s
    ensures !Occurs(s, [c])
  {
    forall k | 0 <= k < |s| ensures !OccursAt(s, [c], k) {
      assert s[k..k + 1] == [s[k]];
    }
  }

  /** A single-character replacement by a single character is a character-wise map. */
  lemma {:induction false} ReplaceCharWise(s: string, c: char, d: char)
    ensures |ReplaceAll(s, [c], [d])| == |s|
    ensures forall k :: 0 <= k < |s| ==>
      ReplaceAll(s, [c], [d])[k] == (if s[k] == c then d else s[k])
    decreases |s|
  {
    if |s| >= 1 {
      assert (s[..1] == [c]) == (s[0] == c) by { assert s[..1] == [s[0]]; }
      ReplaceCharWise(s[1..], c, d);
    }
  }

  /** Characters other than 'E' at the front of a replacement of "EXIT"
      were copied from the front of its input. */
  lemma {:induction false} ExitPrefix(u: string, w: string)
    requires 'E' !in w
    ensures var r := ReplaceAll(u, "EXIT", "Exit");
            |w| <= |r| && r[..|w|] == w ==> |w| <= |u| && u[..|w|] == w
    decreases |w|
  {
    var r := ReplaceAll(u, "EXIT", "Exit");
    if w == [] || |u| < 4 {
    } else if u[..4] == "EXIT" {
      assert r[0] == 'E';
    } else {
      assert r == [u[0]] + ReplaceAll(u[1..], "EXIT", "Exit");
      ExitPrefix(u[1..], w[1..]);
      if |w| <= |r| && r[..|w|] == w {
        assert r[1..][..|w| - 1] == w[1..];
        assert u[..|w|] == [u[0]] + u[1..][..|w| - 1];
      }
    }
  }

  /** Putting "Exit" in front of a text without "EXIT" does not form one. */
  lemma NoExitAfterExit(tail: string)
    requires !Occurs(tail, "EXIT")
    ensures !Occurs("Exit" + tail, "EXIT")
  {
    var r := "Exit" + tail;
    forall k | 0 <= k <= |r| - 4 ensures !OccursAt(r, "EXIT", k) {
      if k < 4 {
        assert r[k] == "Exit"[k];
        assert r[k..k + 4][0] == r[k];
        assert r[k..k + 4][1] == r[k + 1];
      } else {
        assert r[k..k + 4] == tail[k - 4..k];
        assert !OccursAt(tail, "EXIT", k - 4);
      }
    }
  }

  /** Keeping a first character that does not start an "EXIT" does not form one. */
  lemma NoExitAfterKept(s: string)
    requires |s| >= 4 && s[..4] != "EXIT"
    requires !Occurs(ReplaceAll(s[1..], "EXIT", "Exit"), "EXIT")
    ensures !Occurs([s[0]] + ReplaceAll(s[1..], "EXIT", "Exit"), "EXIT")
  {
    var tail := ReplaceAll(s[1..], "EXIT", "Exit");
    var r := [s[0]] + tail;
    forall k | 0 <= k <= |r| - 4 ensures !OccursAt(r, "EXIT", k) {
      if k == 0 {
        ExitPrefix(s[1..], "XIT");
        assert tail[..3] == r[1..4];
        assert r[..4] == [s[0]] + r[1..4];
        assert s[..4] == [s[0]] + s[1..][..3];
      } else {
        assert r[k..k + 4] == tail[k - 1..k + 3];
        assert !OccursAt(tail, "EXIT", k - 1);
      }
    }
  }

  /** Once every "EXIT" is replaced by "Exit" none is left: a new occurrence
      cannot be formed across a replacement. */
  lemma {:induction false} ReplaceExitComplete(s: string)
    ensures !Occurs(ReplaceAll(s, "EXIT", "Exit"), "EXIT")
    decreases |s|
  {
    if |s| < 4 {
      assert ReplaceAll(s, "EXIT", "Exit") == s;
    } else if s[..4] == "EXIT" {
      ReplaceExitComplete(s[4..]);
      NoExitAfterExit(ReplaceAll(s[4..], "EXIT", "Exit"));
    } else {
      ReplaceExitComplete(s[1..]);
      NoExitAfterKept(s);
    }
  }

  predicate AllSpace(s: string) {
    forall k :: 0 <= k < |s| ==> IsSpace(s[k])
  }

  /** Length of the whitespace run at the front of `s`. */
  function LeadingSpaces(s: string): (n: nat)
    ensures n <= |s|
    ensures AllSpace(s[..n])
    ensures n < |s| ==> !IsSpace(s[n])
  {
    if s != [] && IsSpace(s[0]) then
      var m := LeadingSpaces(s[1..]);
      assert s[..m + 1] == [s[0]] + s[1..][..m];
      m + 1
    else 0
  }

  /** Length of the whitespace run at the back of `s`. */
  function TrailingSpaces(s: string): (n: nat)
    ensures n <= |s|
    ensures AllSpace(s[|s| - n..])
    ensures n < |s| ==> !IsSpace(s[|s| - 1 - n])
  {
    if s != [] && IsSpace(s[|s| - 1]) then
      var p := s[..|s| - 1];
      var m := TrailingSpaces(p);
      assert s[|s| - (m + 1)..] == p[|p| - m..] + [s[|s| - 1]];
      m + 1
    else 0
  }

  /** str.lstrip() with no argument. */
  function LStrip(s: string): string {
    s[LeadingSpaces(s)..]
  }

  /** str.rstrip() with no argument. */
  function RStrip(s: string): string {
    s[..|s| - TrailingSpaces(s)]
  }

  /** str.strip() with no argument. */
  function Strip(s: string): (r: string)
    ensures |r| <= |s|
    ensures r == [] || (!IsSpace(r[0]) && !IsSpace(r[|r| - 1]))
  {
    var l := LStrip(s);
    assert LeadingSpaces(s) < |s| ==> l[0] == s[LeadingSpaces(s)];
    RStrip(l)
  }

  /** strip() keeps a contiguous middle of its input, drops only whitespace
      around it, and leaves no whitespace at either end. */
  lemma StripSlice(s: string)
    ensures exists a, b :: 0 <= a <= b <= |s| && Strip(s) == s[a..b]
                           && AllSpace(s[..a]) && AllSpace(s[b..])
    ensures Strip(s) == [] || (!IsSpace(Strip(s)[0]) && !IsSpace(Strip(s)[|Strip(s)| - 1]))
  {
    var a := LeadingSpaces(s);
    var l := s[a..];
    var b := |l| - TrailingSpaces(l);
    assert Strip(s) == s[a..a + b];
    assert s[a + b..] == l[b..];
    if Strip(s) != [] {
      assert Strip(s)[0] == l[0];
      assert Strip(s)[|Strip(s)| - 1] == l[b - 1];
    }
  }

  /** A string with no whitespace at its ends is left alone by strip(). */
  lemma StripStripped(s: string)
    requires s == [] || (!IsSpace(s[0]) && !IsSpace(s[|s| - 1]))
    ensures Strip(s) == s
  {
    assert LStrip(s) == s;
  }

  /** strip() never introduces a character nor an occurrence of a pattern. */
  lemma StripKeeps(s: string, pat: string)
    ensures forall c :: c in Strip(s) ==> c in s
    ensures Occurs(Strip(s), pat) ==> Occurs(s, pat)
  {
    var a := LeadingSpaces(s);
    var m := Strip(s);
    var b := a + |m|;
    assert m == s[a..b];
    if Occurs(m, pat) {
      var k :| 0 <= k <= |m| - |pat| && OccursAt(m, pat, k);
      forall j | 0 <= j < |pat|
        ensures s[a + k + j] == pat[j]
      {
        assert m[k..k + |pat|][j] == pat[j];
        assert m[k + j] == s[a + k + j];
      }
      assert s[a + k..a + k + |pat|] == pat;
      assert OccursAt(s, pat, a + k);
    }
  }

  /** str.lower() on one character (ASCII letters only). */
  function LowerChar(c: char): char {
    if 'A' <= c <= 'Z' then (c as int + 32) as char else c
  }

  predicate IsUpper(c: char) {
    'A' <= c <= 'Z'
  }

  /** str.lower(), restricted to ASCII letters. */
  function Lower(s: string): (r: string)
    ensures |r| == |s|
    ensures forall k :: 0 <= k < |s| ==> !IsUpper(r[k])
    ensures forall k :: 0 <= k < |s| ==> IsSpace(r[k]) == IsSpace(s[k])
    ensures forall k :: 0 <= k < |s| && !IsUpper(s[k]) ==> r[k] == s[k]
  {
    seq(|s|, k requires 0 <= k < |s| => LowerChar(s[k]))
  }
}
