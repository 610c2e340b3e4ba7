/**
 * Sums and maps over sequences whose value depends only on the multiset
 * of elements: the exact-arithmetic sense in which an accumulation over
 * edges does not depend on the order of the edges.
 */
module Reorder {

  /** `f` summed over the elements of `s`, from the first to the last. */
  function Total<T>(s: seq<T>, f: T -> real): real
  {
    if |s| == 0 then 0.0 else Total(s[..|s| - 1], f) + f(s[|s| - 1])
  }

  /** `s` without its element at position `j`. */
  function Remove<T>(s: seq<T>, j: nat): (r: seq<T>)
    requires j < |s|
    ensures |r| == |s| - 1
    ensures multiset(r) == multiset(s) - multiset{s[j]}
  {
    assert s == s[..j] + [s[j]] + s[j + 1..];
    s[..j] + s[j + 1..]
  }

  /** Summing over a concatenation sums over each part. */
  lemma {:induction false} TotalConcat<T>(a: seq<T>, b: seq<T>, f: T -> real)
    ensures Total(a + b, f) == Total(a, f) + Total(b, f)
    decreases |b|
  {
    if |b| > 0 {
      assert (a + b)[..|a + b| - 1] == a + b[..|b| - 1];
      TotalConcat(a, b[..|b| - 1], f);
    } else {
      assert a + b == a;
    }
  }

  /** Removing one element removes exactly its term from the sum. */
  lemma TotalRemove<T>(s: seq<T>, j: nat, f: T -> real)
    requires j < |s|
    ensures Total(s, f) == Total(Remove(s, j), f) + f(s[j])
  {
    var pre, post := s[..j], s[j + 1..];
    var tail := [s[j]] + post;
    assert s == pre + tail;
    TotalConcat(pre, tail, f);
    TotalConcat([s[j]], post, f);
    assert Total([s[j]], f) == f(s[j]) by {
      assert [s[j]][..0] == [];
    }
    assert Remove(s, j) == pre + post;
    TotalConcat(pre, post, f);
  }

  /** Two sequences holding the same elements, in any order, have the same sum. */
  lemma {:induction false} TotalPermutation<T>(a: seq<T>, b: seq<T>, f: T -> real)
    requires multiset(a) == multiset(b)
    ensures Total(a, f) == Total(b, f)
    decreases |a|
  {
    if |a| == 0 {
      assert |multiset(b)| == 0;
    } else {
      var x := a[|a| - 1];
      assert a == a[..|a| - 1] + [x];
      assert x in multiset(a);
      assert x in b;
      var j :| 0 <= j < |b| && b[j] == x;
      assert multiset(a[..|a| - 1]) == multiset(a) - multiset{x};
      TotalPermutation(a[..|a| - 1], Remove(b, j), f);
      TotalRemove(b, j, f);
    }
  }
}
