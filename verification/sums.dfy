/** Finite sums over a sequence, used for every reduction of the model
    (`Iterator::sum`, the buffer reduction of the estimator).  Over the
    reals a sum does not depend on the order of its terms; the lemmas below
    make that and the other algebraic facts the model needs explicit. */
module Sums {

  /** The left fold `((0 + f(s[0])) + f(s[1])) + ...`, the order in which a
      sequential `sum` evaluates. */
  function Sum<T>(s: seq<T>, f: T -> real): real
  {
    if |s| == 0 then 0.0 else Sum(s[..|s| - 1], f) + f(s[|s| - 1])
  }

  lemma {:induction false} SumConcat<T>(a: seq<T>, b: seq<T>, f: T -> real)
    ensures Sum(a + b, f) == Sum(a, f) + Sum(b, f)
    decreases |b|
  {
    if |b| == 0 {
      assert a + b == a;
    } else {
      assert (a + b)[..|a + b| - 1] == a + b[..|b| - 1];
      SumConcat(a, b[..|b| - 1], f);
    }
  }

  /** Removing the term at position `k` lowers the sum by exactly that term. */
  lemma {:induction false} SumRemove<T>(s: seq<T>, k: nat, f: T -> real)
    requires k < |s|
    ensures Sum(s, f) == Sum(s[..k] + s[k + 1..], f) + f(s[k])
  {
    assert s == s[..k] + [s[k]] + s[k + 1..];
    SumConcat(s[..k] + [s[k]], s[k + 1..], f);
    SumConcat(s[..k], [s[k]], f);
    SumConcat(s[..k], s[k + 1..], f);
    assert Sum([s[k]], f) == f(s[k]) by {
      assert [s[k]][..0] == [];
    }
  }

  /** A sum is invariant under any permutation of its terms. */
  lemma {:induction false} SumPermutation<T>(a: seq<T>, b: seq<T>, f: T -> real)
    requires multiset(a) == multiset(b)
    ensures Sum(a, f) == Sum(b, f)
    decreases |a|
  {
    if |a| == 0 {
      assert |b| == |multiset(b)| == 0;
    } else {
      var k := MatchLast(a, b);
      SumPermutation(a[..|a| - 1], b[..k] + b[k + 1..], f);
      SumRemove(b, k, f);
    }
  }

  /** The last element of `a` sits at some position `k` of a permutation
      `b`, and the rests are permutations of each other. */
  lemma MatchLast<T>(a: seq<T>, b: seq<T>) returns (k: nat)
    requires |a| > 0 && multiset(a) == multiset(b)
    ensures k < |b| && b[k] == a[|a| - 1]
    ensures multiset(a[..|a| - 1]) == multiset(b[..k] + b[k + 1..])
  {
    var last := a[|a| - 1];
    assert a == a[..|a| - 1] + [last];
    assert last in multiset(b);
    k :| 0 <= k < |b| && b[k] == last;
    MultisetRemove(b, k);
  }

  lemma MultisetRemove<T>(s: seq<T>, k: nat)
    requires k < |s|
    ensures multiset(s[..k] + s[k + 1..]) == multiset(s) - multiset{s[k]}
  {
    assert s == s[..k] + [s[k]] + s[k + 1..];
  }

  /** Two sums whose terms agree position by position are equal. */
  lemma {:induction false} SumPointwise<S, T>(a: seq<S>, f: S -> real, b: seq<T>, g: T -> real)
    requires |a| == |b|
    requires forall i :: 0 <= i < |a| ==> f(a[i]) == g(b[i])
    ensures Sum(a, f) == Sum(b, g)
    decreases |a|
  {
    if |a| > 0 {
      SumPointwise(a[..|a| - 1], f, b[..|b| - 1], g);
    }
  }

  /** A common factor of the terms comes out of the sum. */
  lemma {:induction false} SumScale<T>(s: seq<T>, f: T -> real, g: T -> real, k: real)
    requires forall i :: 0 <= i < |s| ==> g(s[i]) == f(s[i]) * k
    ensures Sum(s, g) == Sum(s, f) * k
    decreases |s|
  {
    if |s| > 0 {
      SumScale(s[..|s| - 1], f, g, k);
    }
  }

  lemma {:induction false} SumPositive<T>(s: seq<T>, f: T -> real)
    requires |s| > 0
    requires forall i :: 0 <= i < |s| ==> f(s[i]) > 0.0
    ensures Sum(s, f) > 0.0
    decreases |s|
  {
    if |s| > 1 {
      SumPositive(s[..|s| - 1], f);
    }
  }

  lemma {:induction false} SumConstant<T>(s: seq<T>, f: T -> real, k: real)
    requires forall i :: 0 <= i < |s| ==> f(s[i]) == k
    ensures Sum(s, f) == |s| as real * k
    decreases |s|
  {
    if |s| > 0 {
      SumConstant(s[..|s| - 1], f, k);
    }
  }

  /** Termwise smaller terms give a smaller sum. */
  lemma {:induction false} SumMonotone<T>(s: seq<T>, f: T -> real, g: T -> real)
    requires forall i :: 0 <= i < |s| ==> f(s[i]) <= g(s[i])
    ensures Sum(s, f) <= Sum(s, g)
    decreases |s|
  {
    if |s| > 0 {
      SumMonotone(s[..|s| - 1], f, g);
    }
  }
}
