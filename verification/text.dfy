/**
 * The string operations the forms rely on, restricted to ASCII: `trim`, `toLowerCase`,
 * `includes`, `split` on one character and `join`.
 */
module Text {

  /** ASCII white space: what both `\s` and `String.prototype.trim` treat as blank. */
  predicate IsSpace(c: char) {
    c == ' ' || c == '\t' || c == '\n' || c == '\r' || c == '\U{B}' || c == '\U{C}'
  }

  predicate AllSpace(s: string) {
    forall i | 0 <= i < |s| :: IsSpace(s[i])
  }

  /** Neither end of `s` is blank. */
  predicate IsTrimmed(s: string) {
    |s| == 0 || (!IsSpace(s[0]) && !IsSpace(s[|s| - 1]))
  }

  /** The number of blank characters `s` starts with. */
  function LeadingSpaces(s: string): (n: nat)
    ensures n <= |s|
    ensures forall i | 0 <= i < n :: IsSpace(s[i])
    ensures n < |s| ==> !IsSpace(s[n])
  {
    if |s| > 0 && IsSpace(s[0]) then 1 + LeadingSpaces(s[1..]) else 0
  }

  /** The number of blank characters `s` ends with. */
  function TrailingSpaces(s: string): (n: nat)
    ensures n <= |s|
    ensures forall i | |s| - n <= i < |s| :: IsSpace(s[i])
    ensures n < |s| ==> !IsSpace(s[|s| - n - 1])
  {
    if |s| > 0 && IsSpace(s[|s| - 1]) then 1 + TrailingSpaces(s[..|s| - 1]) else 0
  }

  /** `s.trim()`: `s` without its blank prefix and suffix. */
  function Trim(s: string): (r: string)
    ensures IsTrimmed(r)
    ensures r == "" <==> AllSpace(s)
    ensures |r| <= |s|
    ensures forall c | c in r :: c in s
  {
    var t := s[LeadingSpaces(s)..];
    t[..|t| - TrailingSpaces(t)]
  }

  /** Trimming cuts `s` into a blank prefix, the result, and a blank suffix. */
  lemma TrimBounds(s: string) returns (i: nat, j: nat)
    ensures i <= j <= |s|
    ensures Trim(s) == s[i..j]
    ensures forall k | 0 <= k < i :: IsSpace(s[k])
    ensures forall k | j <= k < |s| :: IsSpace(s[k])
  {
    i := LeadingSpaces(s);
    var t := s[i..];
    j := i + |t| - TrailingSpaces(t);
    assert forall k | j <= k < |s| :: s[k] == t[k - i];
  }

  /** Blank padding around an already trimmed string is exactly what `trim` removes. */
  lemma TrimPadded(pre: string, x: string, post: string)
    requires AllSpace(pre) && AllSpace(post) && IsTrimmed(x)
    ensures Trim(pre + x + post) == x
  {
    var s := pre + x + post;
    if |x| == 0 {
      assert AllSpace(s) by {
        forall k | 0 <= k < |s| ensures IsSpace(s[k]) {
          if k < |pre| { assert s[k] == pre[k]; } else { assert s[k] == post[k - |pre|]; }
        }
      }
    } else {
      assert s[|pre|] == x[0];
      assert LeadingSpaces(s) == |pre|;
      var t := s[|pre|..];
      assert t == x + post;
      assert t[|x| - 1] == x[|x| - 1];
      assert TrailingSpaces(t) == |post|;
    }
  }

  /** Trimming twice is trimming once. */
  lemma TrimIdempotent(s: string)
    ensures Trim(Trim(s)) == Trim(s)
  {
    TrimPadded("", Trim(s), "");
    assert "" + Trim(s) + "" == Trim(s);
  }

  /** Lower-casing of one ASCII character. */
  function LowerChar(c: char): char {
    if 'A' <= c <= 'Z' then (c as int + 32) as char else c
  }

  predicate HasUpper(s: string) {
    exists i | 0 <= i < |s| :: 'A' <= s[i] <= 'Z'
  }

  /** `s.toLowerCase()` over ASCII letters. */
  function Lower(s: string): (r: string)
    ensures |r| == |s|
    ensures !HasUpper(r)
    ensures forall i | 0 <= i < |s| :: r[i] == s[i] || ('A' <= s[i] <= 'Z' && r[i] as int == s[i] as int + 32)
  {
    seq(|s|, i requires 0 <= i < |s| => LowerChar(s[i]))
  }

  /** A string without upper-case letters is its own lower-case form; in particular lower-casing is idempotent. */
  lemma LowerOfLower(s: string)
    requires !HasUpper(s)
    ensures Lower(s) == s
  {
    assert forall i | 0 <= i < |s| :: Lower(s)[i] == s[i];
  }

  /** Lower-casing works character by character, so it commutes with taking a slice. */
  lemma LowerSlice(s: string, i: nat, j: nat)
    requires i <= j <= |s|
    ensures Lower(s[i..j]) == Lower(s)[i..j]
  {
  }

  /** Lower-casing never turns a blank character into a visible one, or back. */
  lemma LowerKeepsSpaces(s: string)
    ensures forall i | 0 <= i < |s| :: IsSpace(Lower(s)[i]) <==> IsSpace(s[i])
    ensures IsTrimmed(s) ==> IsTrimmed(Lower(s))
  {
  }

  /** `hay.includes(needle)`: `needle` occurs somewhere in `hay`. */
  predicate Contains(hay: string, needle: string) {
    exists i | 0 <= i <= |hay| :: needle <= hay[i..]
  }

  /** Occurrence is transitive: an occurrence inside an occurrence is an occurrence. */
  lemma ContainsTransitive(a: string, b: string, c: string)
    requires Contains(a, b) && Contains(b, c)
    ensures Contains(a, c)
  {
    var i :| 0 <= i <= |a| && b <= a[i..];
    var j :| 0 <= j <= |b| && c <= b[j..];
    assert c <= a[i + j..];
  }

  /** An occurrence survives lower-casing both strings. */
  lemma ContainsLower(hay: string, needle: string)
    requires Contains(hay, needle)
    ensures Contains(Lower(hay), Lower(needle))
  {
    var i :| 0 <= i <= |hay| && needle <= hay[i..];
    LowerSlice(hay, i, i + |needle|);
    assert Lower(needle) <= Lower(hay)[i..];
  }

  /** Every string contains the empty string and itself. */
  lemma ContainsTrivial(s: string)
    ensures Contains(s, "") && Contains(s, s)
  {
    assert "" <= s[0..];
    assert s <= s[0..];
  }

  /** `s.split(sep)` for a one-character separator: the pieces between separators, always at least one. */
  function Split(s: string, sep: char): (r: seq<string>)
    ensures |r| >= 1
    ensures forall k | 0 <= k < |r| :: sep !in r[k]
  {
    if |s| == 0 then [""]
    else
      var rest := Split(s[1..], sep);
      if s[0] == sep then [""] + rest
      else [[s[0]] + rest[0]] + rest[1..]
  }

  /** There is one more piece than there are separators. */
  lemma {:induction false} SplitCount(s: string, sep: char)
    ensures |Split(s, sep)| == multiset(s)[sep] + 1
  {
    if |s| > 0 {
      SplitCount(s[1..], sep);
      assert s == [s[0]] + s[1..];
    }
  }

  /** `xs.join(sep)`: the items with `sep` between neighbours. */
  function Join(xs: seq<string>, sep: string): string {
    if |xs| == 0 then ""
    else if |xs| == 1 then xs[0]
    else xs[0] + sep + Join(xs[1..], sep)
  }

  /** Joining the pieces of a split with the separator gives back the original string. */
  lemma {:induction false} JoinSplit(s: string, sep: char)
    ensures Join(Split(s, sep), [sep]) == s
  {
    if |s| > 0 {
      var rest := Split(s[1..], sep);
      JoinSplit(s[1..], sep);
      assert Join(rest, [sep]) == s[1..];
      if s[0] == sep {
        JoinCons("", rest, [sep]);
        assert Split(s, sep) == [""] + rest;
      } else {
        var head := [s[0]] + rest[0];
        assert Split(s, sep) == [head] + rest[1..];
        if |rest| == 1 {
          assert Join([head], [sep]) == head;
          assert rest == [rest[0]];
        } else {
          JoinCons(head, rest[1..], [sep]);
          JoinCons(rest[0], rest[1..], [sep]);
          assert rest == [rest[0]] + rest[1..];
        }
      }
      assert s == [s[0]] + s[1..];
    }
  }

  /** Joining an item in front of a non-empty list puts one separator between them. */
  lemma JoinCons(x: string, xs: seq<string>, sep: string)
    requires |xs| > 0
    ensures Join([x] + xs, sep) == x + sep + Join(xs, sep)
  {
    assert ([x] + xs)[1..] == xs;
  }

  /** A separator-free prefix followed by the separator splits off as the first piece. */
  lemma {:induction false} SplitAfterPiece(a: string, sep: char, b: string)
    requires sep !in a
    ensures Split(a + [sep] + b, sep) == [a] + Split(b, sep)
  {
    if |a| > 0 {
      SplitAfterPiece(a[1..], sep, b);
      assert (a + [sep] + b)[1..] == a[1..] + [sep] + b;
      assert [a[0]] + a[1..] == a;
    } else {
      assert (a + [sep] + b)[1..] == b;
    }
  }

  /** A string without the separator splits into itself alone. */
  lemma {:induction false} SplitNoSeparator(s: string, sep: char)
    requires sep !in s
    ensures Split(s, sep) == [s]
  {
    if |s| > 0 {
      SplitNoSeparator(s[1..], sep);
      assert [s[0]] + s[1..] == s;
    }
  }

  /** Splitting a join of separator-free items gives back the items. */
  lemma {:induction false} SplitJoin(xs: seq<string>, sep: char)
    requires |xs| > 0
    requires forall k | 0 <= k < |xs| :: sep !in xs[k]
    ensures Split(Join(xs, [sep]), sep) == xs
  {
    if |xs| == 1 {
      SplitNoSeparator(xs[0], sep);
    } else {
      SplitJoin(xs[1..], sep);
      SplitAfterPiece(xs[0], sep, Join(xs[1..], [sep]));
      assert xs == [xs[0]] + xs[1..];
    }
  }

  /** `xs.map(x => x.trim())`. */
  function TrimAll(xs: seq<string>): (r: seq<string>)
    ensures |r| == |xs|
    ensures forall k | 0 <= k < |r| :: IsTrimmed(r[k]) && |r[k]| <= |xs[k]|
    ensures forall k, c | 0 <= k < |r| && c in r[k] :: c in xs[k]
  {
    seq(|xs|, k requires 0 <= k < |xs| => Trim(xs[k]))
  }

  /** A join starts with its first item. */
  lemma JoinHead(xs: seq<string>, sep: string)
    requires |xs| > 0
    ensures xs[0] <= Join(xs, sep)
  {
  }

  /** Splitting `pre + xs.join(', ')` at commas and trimming the pieces gives back `xs`. */
  lemma {:induction false} TrimSplitJoin(pre: string, xs: seq<string>)
    requires AllSpace(pre) && |xs| > 0
    requires forall k | 0 <= k < |xs| :: IsTrimmed(xs[k]) && ',' !in xs[k]
    ensures TrimAll(Split(pre + Join(xs, ", "), ',')) == xs
    decreases |xs|
  {
    PaddedPiece(pre, xs[0]);
    if |xs| == 1 {
      SplitNoSeparator(pre + xs[0], ',');
      assert pre + Join(xs, ", ") == pre + xs[0];
    } else {
      TrimSplitJoin(" ", xs[1..]);
      TrimSplitJoinStep(pre, xs);
    }
  }

  /** A blank-padded, trimmed, comma-free piece has no comma and trims back to itself. */
  lemma PaddedPiece(pre: string, x: string)
    requires AllSpace(pre) && IsTrimmed(x) && ',' !in x
    ensures ',' !in pre + x && Trim(pre + x) == x
  {
    BlanksHaveNoComma(pre);
    TrimPadded(pre, x, "");
    assert pre + x + "" == pre + x;
  }

  /** The step of `TrimSplitJoin`: the first piece, then the rest as the recursive call found it. */
  lemma TrimSplitJoinStep(pre: string, xs: seq<string>)
    requires AllSpace(pre) && |xs| > 1
    requires ',' !in pre + xs[0] && Trim(pre + xs[0]) == xs[0]
    requires TrimAll(Split(" " + Join(xs[1..], ", "), ',')) == xs[1..]
    ensures TrimAll(Split(pre + Join(xs, ", "), ',')) == xs
  {
    var head := pre + xs[0];
    var tail := " " + Join(xs[1..], ", ");
    JoinAfterPrefix(pre, xs);
    SplitAfterPiece(head, ',', tail);
    TrimAllCons(head, Split(tail, ','));
    assert [xs[0]] + xs[1..] == xs;
  }

  /** `pre + xs.join(', ')` is the padded first item, a comma, and the padded rest. */
  lemma JoinAfterPrefix(pre: string, xs: seq<string>)
    requires |xs| > 1
    ensures pre + Join(xs, ", ") == (pre + xs[0]) + [','] + (" " + Join(xs[1..], ", "))
  {
    JoinCons(xs[0], xs[1..], ", ");
    assert xs == [xs[0]] + xs[1..];
  }

  lemma BlanksHaveNoComma(s: string)
    requires AllSpace(s)
    ensures ',' !in s
  {
  }

  lemma TrimAllCons(x: string, xs: seq<string>)
    ensures TrimAll([x] + xs) == [Trim(x)] + TrimAll(xs)
  {
  }
}
