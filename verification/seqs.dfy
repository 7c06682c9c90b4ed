/** Order-preserving filtering of sequences: the list comprehension `[x for x in xs if keep(x)]`. */
module Seqs {

  /** `[x for x in xs if keep(x)]`. */
  function Select<T(==,!new)>(xs: seq<T>, keep: T -> bool): (r: seq<T>)
    ensures |r| <= |xs|
    ensures forall x :: x in r <==> x in xs && keep(x)
  {
    if |xs| == 0 then []
    else if keep(xs[0]) then [xs[0]] + Select(xs[1..], keep)
    else Select(xs[1..], keep)
  }

  /** `a` is `b` with some elements removed and the rest in their original order. */
  predicate IsSubsequence<T(==,!new)>(a: seq<T>, b: seq<T>)
    decreases |b|
  {
    if |a| == 0 then true
    else if |b| == 0 then false
    else if a[0] == b[0] then IsSubsequence(a[1..], b[1..])
    else IsSubsequence(a, b[1..])
  }

  lemma {:induction false} SelectIsSubsequence<T(!new)>(xs: seq<T>, keep: T -> bool)
    ensures IsSubsequence(Select(xs, keep), xs)
  {
    if |xs| > 0 {
      SelectIsSubsequence(xs[1..], keep);
      if keep(xs[0]) {
        assert ([xs[0]] + Select(xs[1..], keep))[1..] == Select(xs[1..], keep);
      }
    }
  }

  /** Each kept value occurs as often as in the input, every other value not at all. */
  lemma {:induction false} SelectCounts<T(!new)>(xs: seq<T>, keep: T -> bool)
    ensures forall x :: multiset(Select(xs, keep))[x] == if keep(x) then multiset(xs)[x] else 0
  {
    if |xs| > 0 {
      SelectCounts(xs[1..], keep);
      assert xs == [xs[0]] + xs[1..];
      assert multiset(xs) == multiset{xs[0]} + multiset(xs[1..]);
    }
  }

  /** A filter that keeps every element is the identity. */
  lemma {:induction false} SelectAll<T(!new)>(xs: seq<T>, keep: T -> bool)
    requires forall x :: x in xs ==> keep(x)
    ensures Select(xs, keep) == xs
  {
    if |xs| > 0 {
      assert xs[0] in xs;
      SelectAll(xs[1..], keep);
      assert [xs[0]] + xs[1..] == xs;
    }
  }

  /** Filters that agree on every element of `xs` select the same subsequence. */
  lemma {:induction false} SelectCongruent<T(!new)>(xs: seq<T>, p: T -> bool, q: T -> bool)
    requires forall x :: x in xs ==> p(x) == q(x)
    ensures Select(xs, p) == Select(xs, q)
  {
    if |xs| > 0 {
      assert xs[0] in xs;
      SelectCongruent(xs[1..], p, q);
    }
  }

  function Both<T>(p: T -> bool, q: T -> bool): T -> bool
  {
    x => p(x) && q(x)
  }

  /** Two filter passes in a row are one pass with the conjunction. */
  lemma {:induction false} SelectSelect<T(!new)>(xs: seq<T>, p: T -> bool, q: T -> bool)
    ensures Select(Select(xs, p), q) == Select(xs, Both(p, q))
  {
    if |xs| > 0 {
      SelectSelect(xs[1..], p, q);
      if p(xs[0]) {
        assert ([xs[0]] + Select(xs[1..], p))[1..] == Select(xs[1..], p);
      }
    }
  }
}
