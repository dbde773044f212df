/** Sums of natural numbers over a sequence, and the fact that a sum does
    not depend on the order of its terms. */
module Sums {

  function SumOf<T>(s: seq<T>, f: T -> nat): nat {
    if s == [] then 0 else SumOf(s[..|s| - 1], f) + f(s[|s| - 1])
  }

  function Identity(n: nat): nat { n }

  lemma {:induction false} SumOfConcat<T>(u: seq<T>, v: seq<T>, f: T -> nat)
    ensures SumOf(u + v, f) == SumOf(u, f) + SumOf(v, f)
    decreases |v|
  {
    if v != [] {
      assert (u + v)[..|u + v| - 1] == u + v[..|v| - 1];
      SumOfConcat(u, v[..|v| - 1], f);
    } else {
      assert u + v == u;
    }
  }

  /** Two sequences whose terms agree position by position have the same sum. */
  lemma {:induction false} SumOfPointwise<A, B>(a: seq<A>, f: A -> nat, b: seq<B>, g: B -> nat)
    requires |a| == |b|
    requires forall k :: 0 <= k < |a| ==> f(a[k]) == g(b[k])
    ensures SumOf(a, f) == SumOf(b, g)
  {
    if a != [] {
      SumOfPointwise(a[..|a| - 1], f, b[..|b| - 1], g);
    }
  }

  /** Termwise smaller terms have a smaller sum. */
  lemma {:induction false} SumOfPointwiseLe<A, B>(a: seq<A>, f: A -> nat, b: seq<B>, g: B -> nat)
    requires |a| == |b|
    requires forall k :: 0 <= k < |a| ==> f(a[k]) <= g(b[k])
    ensures SumOf(a, f) <= SumOf(b, g)
  {
    if a != [] {
      SumOfPointwiseLe(a[..|a| - 1], f, b[..|b| - 1], g);
    }
  }

  /** Reordering the terms leaves the sum unchanged. */
  lemma {:induction false} SumOfPermutation<T>(a: seq<T>, b: seq<T>, f: T -> nat)
    requires multiset(a) == multiset(b)
    ensures SumOf(a, f) == SumOf(b, f)
    decreases |a|
  {
    if a != [] {
      var init, x := a[..|a| - 1], a[|a| - 1];
      assert a == init + [x];
      assert x in multiset(b);
      var j :| 0 <= j < |b| && b[j] == x;
      var rest := b[..j] + b[j + 1..];
      assert b == b[..j] + [x] + b[j + 1..];
      assert multiset(a) == multiset(init) + multiset{x};
      assert multiset(b) == multiset(b[..j]) + multiset{x} + multiset(b[j + 1..]);
      assert multiset(rest) == multiset(b[..j]) + multiset(b[j + 1..]);
      assert multiset(init) == multiset(a) - multiset{x};
      assert multiset(rest) == multiset(b) - multiset{x};
      SumOfPermutation(init, rest, f);
      SumOfConcat(b[..j], b[j + 1..], f);
      SumOfConcat(b[..j], [x], f);
      SumOfConcat(b[..j] + [x], b[j + 1..], f);
    }
  }
}
