/** Order-preserving filtering of a sequence, the shape of every list the
    application builds by appending the elements that pass a test. */
module Seqs {

  /** The elements of `xs` that satisfy `p`, in their original order. */
  function Filter<T>(p: T -> bool, xs: seq<T>): (r: seq<T>)
    ensures |r| <= |xs|
    ensures forall x :: x in r ==> x in xs && p(x)
  {
    if xs == [] then []
    else
      var front := Filter(p, xs[..|xs| - 1]);
      if p(xs[|xs| - 1]) then front + [xs[|xs| - 1]] else front
  }

  /** Filtering a concatenation filters each part: what passes keeps its relative order. */
  lemma {:induction false} FilterAppend<T>(p: T -> bool, xs: seq<T>, ys: seq<T>)
    ensures Filter(p, xs + ys) == Filter(p, xs) + Filter(p, ys)
    decreases |ys|
  {
    if ys == [] {
      assert xs + ys == xs;
    } else {
      var ys' := ys[..|ys| - 1];
      assert (xs + ys)[..|xs + ys| - 1] == xs + ys';
      FilterAppend(p, xs, ys');
    }
  }

  /** Every element of `xs` that passes is kept. */
  lemma {:induction false} FilterKeeps<T>(p: T -> bool, xs: seq<T>, x: T)
    requires x in xs && p(x)
    ensures x in Filter(p, xs)
    decreases |xs|
  {
    if xs[|xs| - 1] != x {
      assert x in xs[..|xs| - 1] by {
        var k :| 0 <= k < |xs| && xs[k] == x;
        assert xs[..|xs| - 1][k] == x;
      }
      FilterKeeps(p, xs[..|xs| - 1], x);
    }
  }

  /** Filtering keeps everything exactly when everything passes. */
  lemma {:induction false} FilterAll<T>(p: T -> bool, xs: seq<T>)
    ensures Filter(p, xs) == xs <==> forall k :: 0 <= k < |xs| ==> p(xs[k])
    decreases |xs|
  {
    if xs != [] {
      var front := xs[..|xs| - 1];
      FilterAll(p, front);
      assert xs == front + [xs[|xs| - 1]];
      if forall k :: 0 <= k < |xs| ==> p(xs[k]) {
        assert forall k :: 0 <= k < |front| ==> p(front[k]) by {
          forall k | 0 <= k < |front| ensures p(front[k]) {
            assert front[k] == xs[k];
          }
        }
      }
      if Filter(p, xs) == xs {
        if !p(xs[|xs| - 1]) {
          assert |Filter(p, front)| <= |front| < |xs|;
        }
        assert Filter(p, front) == front;
        forall k | 0 <= k < |xs| ensures p(xs[k]) {
          if k < |front| {
            assert xs[k] == front[k];
          }
        }
      }
    }
  }

  /** Filtering drops everything exactly when nothing passes. */
  lemma {:induction false} FilterNone<T>(p: T -> bool, xs: seq<T>)
    ensures Filter(p, xs) == [] <==> forall k :: 0 <= k < |xs| ==> !p(xs[k])
    decreases |xs|
  {
    if xs != [] {
      var front := xs[..|xs| - 1];
      FilterNone(p, front);
      if forall k :: 0 <= k < |xs| ==> !p(xs[k]) {
        assert forall k :: 0 <= k < |front| ==> !p(front[k]) by {
          forall k | 0 <= k < |front| ensures !p(front[k]) {
            assert front[k] == xs[k];
          }
        }
      }
      if Filter(p, xs) == [] {
        forall k | 0 <= k < |xs| ensures !p(xs[k]) {
          if k < |front| {
            assert xs[k] == front[k];
          }
        }
      }
    }
  }

  /** Extending a prefix by one element extends its filter by that element
      exactly when it passes. */
  lemma FilterStep<T>(p: T -> bool, xs: seq<T>, i: nat)
    requires i < |xs|
    ensures Filter(p, xs[..i + 1]) == if p(xs[i]) then Filter(p, xs[..i]) + [xs[i]] else Filter(p, xs[..i])
  {
    assert xs[..i + 1][..i] == xs[..i];
  }

  /** A test and its negation split a sequence: the two filters together have
      every element exactly once. */
  lemma FilterPartition<T>(p: T -> bool, q: T -> bool, xs: seq<T>)
    requires forall x :: q(x) == !p(x)
    ensures |Filter(p, xs)| + |Filter(q, xs)| == |xs|
    ensures multiset(Filter(p, xs)) + multiset(Filter(q, xs)) == multiset(xs)
  {
    FilterSplits(p, q, xs);
    assert |multiset(Filter(p, xs)) + multiset(Filter(q, xs))| == |multiset(xs)|;
  }

  lemma {:induction false} FilterSplits<T>(p: T -> bool, q: T -> bool, xs: seq<T>)
    requires forall x :: q(x) == !p(x)
    ensures multiset(Filter(p, xs)) + multiset(Filter(q, xs)) == multiset(xs)
    decreases |xs|
  {
    if xs != [] {
      var front := xs[..|xs| - 1];
      var last := xs[|xs| - 1];
      FilterSplits(p, q, front);
      assert xs == front + [last];
      var fp, fq := Filter(p, front), Filter(q, front);
      if p(last) {
        assert Filter(p, xs) == fp + [last] && Filter(q, xs) == fq;
        assert multiset(fp + [last]) == multiset(fp) + multiset{last};
      } else {
        assert Filter(p, xs) == fp && Filter(q, xs) == fq + [last];
        assert multiset(fq + [last]) == multiset(fq) + multiset{last};
      }
    }
  }
}
