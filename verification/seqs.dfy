/** Generic facts about sequences: `Array.prototype.filter` and order-preserving sub-sequences. */
module Seqs {

  /** `s.filter(keep)`: the elements of `s` that satisfy `keep`, in their original order. */
  function Filter<T(!new)>(keep: T -> bool, s: seq<T>): (r: seq<T>)
    ensures |r| <= |s|
    ensures forall x :: x in r <==> x in s && keep(x)
  {
    if |s| == 0 then []
    else
      assert s == [s[0]] + s[1..];
      (if keep(s[0]) then [s[0]] else []) + Filter(keep, s[1..])
  }

  /** `a` is obtained from `b` by deleting elements, without reordering the rest. */
  predicate IsSubsequence<T(==)>(a: seq<T>, b: seq<T>)
    decreases |b|
  {
    if |a| == 0 then true
    else if |b| == 0 then false
    else if a[0] == b[0] then IsSubsequence(a[1..], b[1..])
    else IsSubsequence(a, b[1..])
  }

  /** Filtering deletes elements but never reorders or invents them. */
  lemma {:induction false} FilterIsSubsequence<T(!new)>(keep: T -> bool, s: seq<T>)
    ensures IsSubsequence(Filter(keep, s), s)
  {
    if |s| > 0 {
      FilterIsSubsequence(keep, s[1..]);
      var r := Filter(keep, s[1..]);
      if keep(s[0]) {
        assert Filter(keep, s) == [s[0]] + r;
        assert ([s[0]] + r)[1..] == r;
      } else {
        assert Filter(keep, s) == r;
        SubsequenceOfTail(r, s);
      }
    }
  }

  /** A sub-sequence of the tail of `b` is a sub-sequence of `b`. */
  lemma {:induction false} SubsequenceOfTail<T(!new)>(a: seq<T>, b: seq<T>)
    requires |b| > 0 && IsSubsequence(a, b[1..])
    ensures IsSubsequence(a, b)
    decreases |b|, 0
  {
    if |a| > 0 && a[0] == b[0] {
      SubsequenceDropHead(a, b[1..]);
    }
  }

  /** Dropping the first element of a sub-sequence keeps it a sub-sequence. */
  lemma {:induction false} SubsequenceDropHead<T(!new)>(a: seq<T>, c: seq<T>)
    requires |a| > 0 && IsSubsequence(a, c)
    ensures IsSubsequence(a[1..], c)
    decreases |c|, 1
  {
    if a[0] == c[0] {
      SubsequenceOfTail(a[1..], c);
    } else {
      SubsequenceDropHead(a, c[1..]);
      SubsequenceOfTail(a[1..], c);
    }
  }

  /** Each element keeps its multiplicity when it passes the test and vanishes otherwise. */
  lemma {:induction false} FilterCount<T(!new)>(keep: T -> bool, s: seq<T>, x: T)
    ensures multiset(Filter(keep, s))[x] == if keep(x) then multiset(s)[x] else 0
  {
    if |s| > 0 {
      FilterCount(keep, s[1..], x);
      assert s == [s[0]] + s[1..];
    }
  }

  /** Filtering an already filtered sequence with the same test changes nothing. */
  lemma {:induction false} FilterIdempotent<T(!new)>(keep: T -> bool, s: seq<T>)
    ensures Filter(keep, Filter(keep, s)) == Filter(keep, s)
  {
    if |s| > 0 {
      FilterIdempotent(keep, s[1..]);
      var r := Filter(keep, s[1..]);
      if keep(s[0]) {
        assert Filter(keep, s) == [s[0]] + r;
        assert ([s[0]] + r)[1..] == r;
        assert Filter(keep, [s[0]] + r) == [s[0]] + Filter(keep, r);
      } else {
        assert Filter(keep, s) == r;
      }
    }
  }

  /** A sequence whose elements all pass the test is its own filtering. */
  lemma {:induction false} FilterKeepsAll<T(!new)>(keep: T -> bool, s: seq<T>)
    requires forall i | 0 <= i < |s| :: keep(s[i])
    ensures Filter(keep, s) == s
  {
    if |s| > 0 {
      FilterKeepsAll(keep, s[1..]);
      assert s == [s[0]] + s[1..];
    }
  }

  /** Two tests that agree on every element give the same filtering. */
  lemma {:induction false} FilterAgree<T(!new)>(f: T -> bool, g: T -> bool, s: seq<T>)
    requires forall i | 0 <= i < |s| :: f(s[i]) == g(s[i])
    ensures Filter(f, s) == Filter(g, s)
  {
    if |s| > 0 {
      FilterAgree(f, g, s[1..]);
    }
  }

  /** Filtering with a stronger test yields a sub-sequence of filtering with a weaker one. */
  lemma {:induction false} FilterMonotone<T(!new)>(strong: T -> bool, weak: T -> bool, s: seq<T>)
    requires forall i | 0 <= i < |s| :: strong(s[i]) ==> weak(s[i])
    ensures IsSubsequence(Filter(strong, s), Filter(weak, s))
  {
    if |s| > 0 {
      FilterMonotone(strong, weak, s[1..]);
      var a := Filter(strong, s[1..]);
      var b := Filter(weak, s[1..]);
      if strong(s[0]) {
        assert Filter(strong, s) == [s[0]] + a;
        assert Filter(weak, s) == [s[0]] + b;
        assert ([s[0]] + a)[1..] == a;
        assert ([s[0]] + b)[1..] == b;
      } else if weak(s[0]) {
        assert Filter(strong, s) == a;
        assert Filter(weak, s) == [s[0]] + b;
        assert ([s[0]] + b)[1..] == b;
        SubsequenceOfTail(a, [s[0]] + b);
      } else {
        assert Filter(strong, s) == a;
        assert Filter(weak, s) == b;
      }
    }
  }

  /** Filtering distributes over concatenation. */
  lemma {:induction false} FilterAppend<T(!new)>(keep: T -> bool, a: seq<T>, b: seq<T>)
    ensures Filter(keep, a + b) == Filter(keep, a) + Filter(keep, b)
  {
    if |a| > 0 {
      FilterAppend(keep, a[1..], b);
      assert (a + b)[1..] == a[1..] + b;
      assert (a + b)[0] == a[0];
    } else {
      assert a + b == b;
    }
  }
}
