/**
 * The string primitives the page matchers rely on: `String.prototype.includes`,
 * an ASCII-only `toLowerCase`, and `String.prototype.trim` with the
 * ECMAScript set of white-space and line-terminator characters.
 */
module Text {

  /** `p` occurs in `s` at position `i`. */
  predicate OccursAt(s: string, p: string, i: nat)
  {
    i + |p| <= |s| && s[i..i + |p|] == p
  }

  /** `s.includes(p)`: plain, case-sensitive substring containment. */
  predicate Contains(s: string, p: string)
  {
    exists i | 0 <= i <= |s| :: OccursAt(s, p, i)
  }

  /** If one character of `p` appears nowhere in `s`, then `s` cannot contain `p`. */
  lemma {:induction false} MissingCharExcludes(s: string, p: string, k: nat)
    requires k < |p|
    requires forall j :: 0 <= j < |s| ==> s[j] != p[k]
    ensures !Contains(s, p)
  {
    forall i | 0 <= i <= |s|
      ensures !OccursAt(s, p, i)
    {
      if i + |p| <= |s| {
        assert s[i..i + |p|][k] == s[i + k] != p[k];
      }
    }
  }

  /** A string shorter than `p` cannot contain it. */
  lemma ShorterExcludes(s: string, p: string)
    requires |s| < |p|
    ensures !Contains(s, p)
  {
  }

  /** Lower-cases one character, A-Z only. */
  function LowerChar(c: char): (r: char)
  {
    if 'A' <= c <= 'Z' then (c as int + 32) as char else c
  }

  /** `s.toLowerCase()` restricted to the Latin capitals A-Z. */
  function AsciiLower(s: string): (r: string)
    ensures |r| == |s|
    ensures forall i :: 0 <= i < |s| ==> r[i] == LowerChar(s[i])
  {
    seq(|s|, i requires 0 <= i < |s| => LowerChar(s[i]))
  }

  /** Lower-casing works character by character, so it commutes with slicing. */
  lemma AsciiLowerSlice(s: string, i: nat, j: nat)
    requires i <= j <= |s|
    ensures AsciiLower(s)[i..j] == AsciiLower(s[i..j])
  {
  }

  /** `c` is `pc` itself, or the capital of the lower-case Latin letter `pc`. */
  predicate SameIgnoringAsciiCase(c: char, pc: char)
  {
    c == pc || ('a' <= pc <= 'z' && c as int == pc as int - 32)
  }

  /** `p` occurs in `s` at position `i` when capitals A-Z are read as their lower-case letters. */
  predicate OccursIgnoringCaseAt(s: string, p: string, i: nat)
  {
    i + |p| <= |s| && forall j :: 0 <= j < |p| ==> SameIgnoringAsciiCase(s[i + j], p[j])
  }

  /** `p` has no capitals A-Z. */
  predicate NoAsciiCapitals(p: string)
  {
    forall j :: 0 <= j < |p| ==> !('A' <= p[j] <= 'Z')
  }

  /** Position by position: lower-casing `s` makes `p` appear exactly where it appears up to case. */
  lemma {:induction false} LowerOccursAt(s: string, p: string, i: nat)
    requires NoAsciiCapitals(p)
    ensures OccursAt(AsciiLower(s), p, i) <==> OccursIgnoringCaseAt(s, p, i)
  {
    if i + |p| <= |s| {
      var l := AsciiLower(s);
      forall j | 0 <= j < |p|
        ensures l[i + j] == p[j] <==> SameIgnoringAsciiCase(s[i + j], p[j])
      {
        assert !('A' <= p[j] <= 'Z');
      }
      if OccursAt(l, p, i) {
        forall j | 0 <= j < |p| ensures l[i + j] == p[j] {
          assert l[i..i + |p|][j] == l[i + j];
        }
      }
      if OccursIgnoringCaseAt(s, p, i) {
        assert l[i..i + |p|] == p;
      }
    }
  }

  /**
   * `s.toLowerCase().includes(p)`, for a pattern without capitals, holds
   * exactly when `p` occurs in `s` up to the case of the letters A-Z.
   */
  lemma {:induction false} ContainsIgnoringAsciiCase(s: string, p: string)
    requires NoAsciiCapitals(p)
    ensures Contains(AsciiLower(s), p) <==> exists i | 0 <= i <= |s| :: OccursIgnoringCaseAt(s, p, i)
  {
    forall i | 0 <= i <= |s|
      ensures OccursAt(AsciiLower(s), p, i) <==> OccursIgnoringCaseAt(s, p, i)
    {
      LowerOccursAt(s, p, i);
    }
  }

  /**
   * The characters `String.prototype.trim` strips: the ECMAScript WhiteSpace
   * set (TAB, VT, FF, SPACE, NBSP, ZWNBSP and the other Zs separators) and the
   * LineTerminator set (LF, CR, LS, PS).
   */
  predicate IsTrimmable(c: char)
  {
    || c == '\t' || c == '\n' || c == '\U{B}' || c == '\U{C}' || c == '\r'
    || c == ' ' || c == '\U{A0}' || c == '\U{1680}'
    || ('\U{2000}' <= c <= '\U{200A}')
    || c == '\U{2028}' || c == '\U{2029}' || c == '\U{202F}' || c == '\U{205F}'
    || c == '\U{3000}' || c == '\U{FEFF}'
  }

  /** `s` without its leading white space. */
  function TrimStart(s: string): string
    decreases |s|
  {
    if |s| > 0 && IsTrimmable(s[0]) then TrimStart(s[1..]) else s
  }

  /** `s` without its trailing white space. */
  function TrimEnd(s: string): string
    decreases |s|
  {
    if |s| > 0 && IsTrimmable(s[|s| - 1]) then TrimEnd(s[..|s| - 1]) else s
  }

  /** `s.trim()`: `s` without its leading and trailing white space. */
  function Trim(s: string): string
  {
    TrimEnd(TrimStart(s))
  }

  /**
   * `TrimStart` removes a prefix made only of white space, and stops at the
   * first character that is not white space.
   */
  lemma {:induction false} TrimStartCutsBlankPrefix(s: string)
    ensures |TrimStart(s)| <= |s|
    ensures TrimStart(s) == s[|s| - |TrimStart(s)|..]
    ensures forall j :: 0 <= j < |s| - |TrimStart(s)| ==> IsTrimmable(s[j])
    ensures TrimStart(s) != [] ==> !IsTrimmable(TrimStart(s)[0])
    decreases |s|
  {
    if |s| > 0 && IsTrimmable(s[0]) {
      TrimStartCutsBlankPrefix(s[1..]);
      forall j | 0 < j < |s| - |TrimStart(s)|
        ensures IsTrimmable(s[j])
      {
        assert s[j] == s[1..][j - 1];
      }
    }
  }

  /**
   * `TrimEnd` removes a suffix made only of white space, and stops after the
   * last character that is not white space.
   */
  lemma {:induction false} TrimEndCutsBlankSuffix(s: string)
    ensures |TrimEnd(s)| <= |s|
    ensures TrimEnd(s) == s[..|TrimEnd(s)|]
    ensures forall j :: |TrimEnd(s)| <= j < |s| ==> IsTrimmable(s[j])
    ensures TrimEnd(s) != [] ==> !IsTrimmable(TrimEnd(s)[|TrimEnd(s)| - 1])
    decreases |s|
  {
    if |s| > 0 && IsTrimmable(s[|s| - 1]) {
      var init := s[..|s| - 1];
      TrimEndCutsBlankSuffix(init);
      forall j | |TrimEnd(s)| <= j < |s| - 1
        ensures IsTrimmable(s[j])
      {
        assert s[j] == init[j];
      }
    }
  }

  /** A pattern that does not start with white space is found in `s` iff it is found after `TrimStart`. */
  lemma {:induction false} TrimStartKeepsOccurrence(s: string, p: string)
    requires |p| > 0 && !IsTrimmable(p[0])
    ensures Contains(TrimStart(s), p) <==> Contains(s, p)
  {
    TrimStartCutsBlankPrefix(s);
    var t := TrimStart(s);
    var cut := |s| - |t|;
    if Contains(t, p) {
      var i :| 0 <= i <= |t| && OccursAt(t, p, i);
      assert t[i..i + |p|] == s[cut + i..cut + i + |p|];
      assert OccursAt(s, p, cut + i);
    }
    if Contains(s, p) {
      var i :| 0 <= i <= |s| && OccursAt(s, p, i);
      assert s[i] == p[0] by { assert s[i..i + |p|][0] == p[0]; }
      assert cut <= i;
      assert t[i - cut..i - cut + |p|] == s[i..i + |p|];
      assert OccursAt(t, p, i - cut);
    }
  }

  /** A pattern that does not end with white space is found in `s` iff it is found after `TrimEnd`. */
  lemma {:induction false} TrimEndKeepsOccurrence(s: string, p: string)
    requires |p| > 0 && !IsTrimmable(p[|p| - 1])
    ensures Contains(TrimEnd(s), p) <==> Contains(s, p)
  {
    TrimEndCutsBlankSuffix(s);
    var t := TrimEnd(s);
    if Contains(t, p) {
      var i :| 0 <= i <= |t| && OccursAt(t, p, i);
      assert t[i..i + |p|] == s[i..i + |p|];
      assert OccursAt(s, p, i);
    }
    if Contains(s, p) {
      var i :| 0 <= i <= |s| && OccursAt(s, p, i);
      assert s[i + |p| - 1] == p[|p| - 1] by { assert s[i..i + |p|][|p| - 1] == p[|p| - 1]; }
      assert i + |p| <= |t|;
      assert t[i..i + |p|] == s[i..i + |p|];
      assert OccursAt(t, p, i);
    }
  }

  /**
   * Trimming never changes whether a string contains a pattern that neither
   * starts nor ends with white space: such an occurrence cannot overlap the
   * white space that trim removes.
   */
  lemma {:induction false} TrimKeepsInnerOccurrence(s: string, p: string)
    requires |p| > 0 && !IsTrimmable(p[0]) && !IsTrimmable(p[|p| - 1])
    ensures Contains(Trim(s), p) <==> Contains(s, p)
  {
    TrimStartKeepsOccurrence(s, p);
    TrimEndKeepsOccurrence(TrimStart(s), p);
  }
}
