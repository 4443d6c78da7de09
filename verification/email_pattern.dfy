/**
 * The unanchored pattern `\S+@\S+\.\S+` that both the signup modal and the signup service test
 * e-mail addresses against, restricted to ASCII white space.
 */
module EmailPattern {
  import opened Text

  /** No blank character in `s[lo..hi)`. */
  predicate NoSpaceBetween(s: string, lo: int, hi: int)
    requires 0 <= lo && hi <= |s|
  {
    forall k | lo <= k < hi :: !IsSpace(s[k])
  }

  /**
   * The pattern matches with its `@` at `p` and its `.` at `q`: a visible character before the
   * `@`, at least one visible character between `@` and `.`, and a visible character after `.`.
   * Longer `\S+` runs are not needed, since one character of each run suffices for a match.
   */
  predicate MatchAt(s: string, p: int, q: int) {
    && 0 < p && p + 1 < q && q + 1 < |s|
    && s[p] == '@' && s[q] == '.'
    && !IsSpace(s[p - 1])
    && NoSpaceBetween(s, p + 1, q)
    && !IsSpace(s[q + 1])
  }

  /** `/\S+@\S+\.\S+/.test(s)`. */
  predicate EmailShaped(s: string) {
    exists p, q | 0 <= p < |s| && 0 <= q < |s| :: MatchAt(s, p, q)
  }

  /** `p` is an `@` after a visible character, followed by visible characters up to `i`. */
  predicate OpenAt(s: string, p: int, i: int)
    requires 0 <= i <= |s|
  {
    0 < p < i && s[p] == '@' && !IsSpace(s[p - 1]) && NoSpaceBetween(s, p + 1, i)
  }

  /**
   * A left-to-right scan that decides the pattern in one pass. It remembers the first `@` of the
   * current run of visible characters that could start a match, and reports a match at the first
   * `.` that has a visible character on each side and at least one character between it and that `@`.
   */
  method MatchesEmailPattern(s: string) returns (b: bool)
    ensures b <==> EmailShaped(s)
  {
    var at := -1;
    var i := 0;
    while i < |s|
      invariant 0 <= i <= |s|
      invariant at == -1 || OpenAt(s, at, i)
      invariant forall p | 0 <= p < i :: OpenAt(s, p, i) ==> at != -1 && at <= p
      invariant forall p, q | 0 <= p < |s| && 0 <= q < i :: !MatchAt(s, p, q)
    {
      if s[i] == '.' && at != -1 && at + 1 < i && i + 1 < |s| && !IsSpace(s[i + 1]) {
        assert MatchAt(s, at, i);
        return true;
      }
      forall p | 0 <= p < |s| ensures !MatchAt(s, p, i) {
        if MatchAt(s, p, i) {
          assert OpenAt(s, p, i);
        }
      }
      ghost var before := at;
      if IsSpace(s[i]) {
        at := -1;
      } else if s[i] == '@' && at == -1 && i > 0 && !IsSpace(s[i - 1]) {
        at := i;
      }
      ghost var next := i + 1;
      forall p | 0 <= p < next && OpenAt(s, p, next) ensures at != -1 && at <= p {
        if p < i {
          assert OpenAt(s, p, i) && !IsSpace(s[i]);
          assert before != -1 && before <= p;
        }
      }
      i := i + 1;
    }
    return false;
  }

  /** A match inside a slice is a match of the whole string. */
  lemma ShapedSlice(s: string, i: nat, j: nat)
    requires i <= j <= |s| && EmailShaped(s[i..j])
    ensures EmailShaped(s)
  {
    var t := s[i..j];
    var p, q :| 0 <= p < |t| && 0 <= q < |t| && MatchAt(t, p, q);
    assert MatchAt(s, p + i, q + i);
  }

  /** A match lies on visible characters, so it survives cutting away a blank prefix and suffix. */
  lemma ShapedTrim(s: string)
    ensures EmailShaped(Trim(s)) <==> EmailShaped(s)
  {
    var i, j := TrimBounds(s);
    if EmailShaped(s) {
      var p, q :| 0 <= p < |s| && 0 <= q < |s| && MatchAt(s, p, q);
      assert i <= p - 1 && q + 1 < j;
      assert MatchAt(s[i..j], p - i, q - i);
    }
    if EmailShaped(Trim(s)) {
      ShapedSlice(s, i, j);
    }
  }

  /** Lower-casing leaves `@`, `.` and blanks where they were. */
  lemma ShapedLower(s: string)
    ensures EmailShaped(Lower(s)) <==> EmailShaped(s)
  {
    var t := Lower(s);
    LowerKeepsSpaces(s);
    if EmailShaped(s) {
      var p, q :| 0 <= p < |s| && 0 <= q < |s| && MatchAt(s, p, q);
      assert MatchAt(t, p, q);
    }
    if EmailShaped(t) {
      var p, q :| 0 <= p < |t| && 0 <= q < |t| && MatchAt(t, p, q);
      assert MatchAt(s, p, q);
    }
  }

  /** A string the pattern matches is never blank. */
  lemma ShapedNotBlank(s: string)
    ensures EmailShaped(s) ==> Trim(s) != ""
  {
    if EmailShaped(s) {
      var p, q :| 0 <= p < |s| && 0 <= q < |s| && MatchAt(s, p, q);
      assert !IsSpace(s[p]);
    }
  }

  /** Without an `@` or without a `.` there is no match. */
  lemma ShapedNeedsAtAndDot(s: string)
    requires '@' !in s || '.' !in s
    ensures !EmailShaped(s)
  {
  }
}
