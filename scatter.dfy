/**
 * The scatter-add `buf.index_add_(0, idx, src)`: row `e` of `src` is
 * added into row `idx[e]` of the buffer, for every `e` in turn. The
 * buffer is an array updated in place; `Scattered` is what each entry
 * ends up holding, a filtered sum over the rows.
 */
module Scatter {
  import opened Linear

  /** Every index of `idx` addresses a row of a buffer with `size` rows. */
  predicate InRange(idx: seq<int>, size: int)
  {
    forall e | 0 <= e < |idx| :: 0 <= idx[e] < size
  }

  /** What a row `v` sent to node `i` adds to channel `k` of node `n`. */
  function Landing(i: int, v: Vec, n: int, k: nat): real
  {
    if i == n && k < |v| then v[k] else 0.0
  }

  /** The sum of `feats[e][k]` over the rows `e` whose index `idx[e]` is `n`. */
  function Scattered(idx: seq<int>, feats: seq<Vec>, n: int, k: nat): real
    requires |idx| == |feats|
  {
    if |idx| == 0 then 0.0
    else Scattered(idx[..|idx| - 1], feats[..|feats| - 1], n, k) + Landing(idx[|idx| - 1], feats[|feats| - 1], n, k)
  }

  /** `Scattered` summed over the nodes `0 .. size - 1`. */
  function ScatteredOverNodes(idx: seq<int>, feats: seq<Vec>, size: nat, k: nat): real
    requires |idx| == |feats|
  {
    if size == 0 then 0.0 else ScatteredOverNodes(idx, feats, size - 1, k) + Scattered(idx, feats, size - 1, k)
  }

  /** The occurrence counts `multiset(idx)[n]` summed over the nodes `0 .. size - 1`. */
  function CountOverNodes(idx: seq<int>, size: nat): nat
  {
    if size == 0 then 0 else CountOverNodes(idx, size - 1) + multiset(idx)[size - 1]
  }

  /**
   * `buf.index_add_(0, idx, feats)` on a buffer whose rows have `c`
   * channels: afterwards each entry has grown by the filtered sum of the
   * rows sent to it, and nothing else has changed.
   */
  method IndexAdd(buf: array<Vec>, idx: seq<int>, feats: seq<Vec>, ghost c: nat)
    requires |idx| == |feats| && InRange(idx, buf.Length)
    requires forall n | 0 <= n < buf.Length :: |buf[n]| == c
    requires forall e | 0 <= e < |feats| :: |feats[e]| == c
    modifies buf
    ensures forall n | 0 <= n < buf.Length :: |buf[n]| == c
    ensures forall n, k | 0 <= n < buf.Length && 0 <= k < c ::
              buf[n][k] == old(buf[n][k]) + Scattered(idx, feats, n, k)
  {
    var i := 0;
    while i < |idx|
      invariant 0 <= i <= |idx|
      invariant forall n | 0 <= n < buf.Length :: |buf[n]| == c
      invariant forall n, k | 0 <= n < buf.Length && 0 <= k < c ::
                  buf[n][k] == old(buf[n][k]) + Scattered(idx[..i], feats[..i], n, k)
    {
      assert idx[..i + 1][..i] == idx[..i];
      assert feats[..i + 1][..i] == feats[..i];
      buf[idx[i]] := Add(buf[idx[i]], feats[i]);
      i := i + 1;
    }
    assert idx[..|idx|] == idx;
    assert feats[..|feats|] == feats;
  }

  /**
   * `buf.index_add_(0, idx, ones)`: afterwards each entry has grown by
   * the number of times its node occurs in `idx`.
   */
  method IndexCount(buf: array<nat>, idx: seq<int>)
    requires InRange(idx, buf.Length)
    modifies buf
    ensures forall n | 0 <= n < buf.Length :: buf[n] == old(buf[n]) + multiset(idx)[n]
  {
    var i := 0;
    while i < |idx|
      invariant 0 <= i <= |idx|
      invariant forall n | 0 <= n < buf.Length :: buf[n] == old(buf[n]) + multiset(idx[..i])[n]
    {
      assert idx[..i + 1] == idx[..i] + [idx[i]];
      buf[idx[i]] := buf[idx[i]] + 1;
      i := i + 1;
    }
    assert idx[..|idx|] == idx;
  }

  /** Scattering a concatenation scatters each part. */
  lemma {:induction false} ScatteredConcat(a: seq<int>, fa: seq<Vec>, b: seq<int>, fb: seq<Vec>, n: int, k: nat)
    requires |a| == |fa| && |b| == |fb|
    ensures Scattered(a + b, fa + fb, n, k) == Scattered(a, fa, n, k) + Scattered(b, fb, n, k)
    decreases |b|
  {
    if |b| == 0 {
      assert a + b == a && fa + fb == fa;
    } else {
      assert (a + b)[..|a + b| - 1] == a + b[..|b| - 1];
      assert (fa + fb)[..|fa + fb| - 1] == fa + fb[..|fb| - 1];
      ScatteredConcat(a, fa, b[..|b| - 1], fb[..|fb| - 1], n, k);
    }
  }

  /** Taking row `j` out of a scatter takes exactly its landing out of every entry. */
  lemma ScatteredRemove(idx: seq<int>, feats: seq<Vec>, j: nat, n: int, k: nat)
    requires |idx| == |feats| && j < |idx|
    ensures Scattered(idx, feats, n, k)
         == Scattered(idx[..j] + idx[j + 1..], feats[..j] + feats[j + 1..], n, k) + Landing(idx[j], feats[j], n, k)
  {
    assert idx == idx[..j] + ([idx[j]] + idx[j + 1..]);
    assert feats == feats[..j] + ([feats[j]] + feats[j + 1..]);
    ScatteredConcat(idx[..j], feats[..j], [idx[j]] + idx[j + 1..], [feats[j]] + feats[j + 1..], n, k);
    ScatteredConcat([idx[j]], [feats[j]], idx[j + 1..], feats[j + 1..], n, k);
    assert Scattered([idx[j]], [feats[j]], n, k) == Landing(idx[j], feats[j], n, k) by {
      assert [idx[j]][..0] == [] && [feats[j]][..0] == [];
    }
    ScatteredConcat(idx[..j], feats[..j], idx[j + 1..], feats[j + 1..], n, k);
  }

  /** A node that no row is sent to receives nothing. */
  lemma {:induction false} ScatteredAbsent(idx: seq<int>, feats: seq<Vec>, n: int, k: nat)
    requires |idx| == |feats| && n !in idx
    ensures Scattered(idx, feats, n, k) == 0.0
  {
    if |idx| > 0 {
      assert idx == idx[..|idx| - 1] + [idx[|idx| - 1]];
      ScatteredAbsent(idx[..|idx| - 1], feats[..|feats| - 1], n, k);
    }
  }

  /** Over all nodes, the last row of a scatter is counted once if its index is in range. */
  lemma {:induction false} ScatteredOverNodesStep(idx: seq<int>, feats: seq<Vec>, size: nat, k: nat)
    requires |idx| == |feats| && |idx| > 0
    ensures ScatteredOverNodes(idx, feats, size, k)
         == ScatteredOverNodes(idx[..|idx| - 1], feats[..|feats| - 1], size, k)
            + (if 0 <= idx[|idx| - 1] < size && k < |feats[|feats| - 1]| then feats[|feats| - 1][k] else 0.0)
  {
    if size > 0 {
      ScatteredOverNodesStep(idx, feats, size - 1, k);
    }
  }

  /** A scatter with every index in range loses nothing: its entries add up to the column total of the rows. */
  lemma {:induction false} ScatterConserves(idx: seq<int>, feats: seq<Vec>, size: nat, k: nat)
    requires |idx| == |feats| && InRange(idx, size)
    requires forall e | 0 <= e < |feats| :: k < |feats[e]|
    ensures ScatteredOverNodes(idx, feats, size, k) == ColumnSum(feats, k)
    decreases |idx|
  {
    if |idx| == 0 {
      assert ScatteredOverNodes(idx, feats, size, k) == 0.0 by {
        ScatteredOverNodesZero(idx, feats, size, k);
      }
    } else {
      ScatteredOverNodesStep(idx, feats, size, k);
      ScatterConserves(idx[..|idx| - 1], feats[..|feats| - 1], size, k);
    }
  }

  /** An empty scatter leaves every node at zero. */
  lemma {:induction false} ScatteredOverNodesZero(idx: seq<int>, feats: seq<Vec>, size: nat, k: nat)
    requires |idx| == |feats| && |idx| == 0
    ensures ScatteredOverNodes(idx, feats, size, k) == 0.0
  {
    if size > 0 {
      ScatteredOverNodesZero(idx, feats, size - 1, k);
    }
  }

  /** Over all nodes, the last index is counted once if it is in range. */
  lemma {:induction false} CountOverNodesStep(idx: seq<int>, size: nat)
    requires |idx| > 0
    ensures CountOverNodes(idx, size)
         == CountOverNodes(idx[..|idx| - 1], size) + (if 0 <= idx[|idx| - 1] < size then 1 else 0)
  {
    assert idx == idx[..|idx| - 1] + [idx[|idx| - 1]];
    if size > 0 {
      CountOverNodesStep(idx, size - 1);
    }
  }

  /** When every index is in range, the occurrence counts over all nodes add up to the number of indices. */
  lemma {:induction false} CountConserves(idx: seq<int>, size: nat)
    requires InRange(idx, size)
    ensures CountOverNodes(idx, size) == |idx|
    decreases |idx|
  {
    if |idx| == 0 {
      CountOverNodesZero(idx, size);
    } else {
      CountOverNodesStep(idx, size);
      CountConserves(idx[..|idx| - 1], size);
    }
  }

  /** No indices, no counts. */
  lemma {:induction false} CountOverNodesZero(idx: seq<int>, size: nat)
    requires |idx| == 0
    ensures CountOverNodes(idx, size) == 0
  {
    if size > 0 {
      CountOverNodesZero(idx, size - 1);
    }
  }
}
