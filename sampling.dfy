/** random.sample(range(population), k) and the selections made with its result. */
module Sampling {

  /** No index occurs twice. */
  predicate Distinct(idx: seq<nat>) {
    forall i, j :: 0 <= i < j < |idx| ==> idx[i] != idx[j]
  }

  /** Every index addresses one of `population` positions. */
  predicate InRange(idx: seq<nat>, population: nat) {
    forall j :: 0 <= j < |idx| ==> idx[j] < population
  }

  /** What random.sample can return for k draws out of `population` positions:
      k pairwise distinct positions, in the order they were drawn. */
  predicate IsDraw(idx: seq<nat>, k: nat, population: nat) {
    |idx| == k && Distinct(idx) && InRange(idx, population)
  }

  /** s[idx]: the elements of s at the given positions, in the order of idx. */
  function Select<T>(s: seq<T>, idx: seq<nat>): seq<T>
    requires InRange(idx, |s|)
  {
    seq(|idx|, j requires 0 <= j < |idx| => s[idx[j]])
  }

  lemma SelectConcat<T>(s: seq<T>, a: seq<nat>, b: seq<nat>)
    requires InRange(a, |s|) && InRange(b, |s|)
    ensures InRange(a + b, |s|)
    ensures Select(s, a + b) == Select(s, a) + Select(s, b)
  {
    assert forall j :: 0 <= j < |a + b| ==> (a + b)[j] == if j < |a| then a[j] else b[j - |a|];
  }

  /** The draw with its k-th position taken out. */
  function Without(idx: seq<nat>, k: nat): (rest: seq<nat>)
    requires k < |idx|
  {
    idx[..k] + idx[k + 1..]
  }

  lemma WithoutAt(idx: seq<nat>, k: nat, j: nat)
    requires k < |idx| && j < |idx| - 1
    ensures Without(idx, k)[j] == if j < k then idx[j] else idx[j + 1]
  {
  }

  /** Taking out a position that holds the largest index keeps the draw distinct, below that index. */
  lemma WithoutLast(idx: seq<nat>, k: nat, population: nat)
    requires Distinct(idx) && InRange(idx, population + 1) && k < |idx| && idx[k] == population
    ensures Distinct(Without(idx, k)) && InRange(Without(idx, k), population)
  {
    var rest := Without(idx, k);
    forall j | 0 <= j < |rest| ensures rest[j] < population {
      WithoutAt(idx, k, j);
    }
    forall i, j | 0 <= i < j < |rest| ensures rest[i] != rest[j] {
      WithoutAt(idx, k, i);
      WithoutAt(idx, k, j);
    }
  }

  /** Selecting the k-th position separately from the others. */
  lemma SelectWithout<T>(s: seq<T>, idx: seq<nat>, k: nat)
    requires InRange(idx, |s|) && k < |idx|
    ensures InRange(Without(idx, k), |s|)
    ensures multiset(Select(s, idx)) == multiset(Select(s, Without(idx, k))) + multiset{s[idx[k]]}
  {
    assert idx == idx[..k] + [idx[k]] + idx[k + 1..];
    assert InRange(idx[..k], |s|) && InRange(idx[k + 1..], |s|);
    SelectConcat(s, idx[..k], [idx[k]]);
    SelectConcat(s, idx[..k] + [idx[k]], idx[k + 1..]);
    SelectConcat(s, idx[..k], idx[k + 1..]);
    assert Select(s, [idx[k]]) == [s[idx[k]]];
  }

  /** Selecting positions below n from s is selecting them from s[..n]. */
  lemma SelectPrefix<T>(s: seq<T>, idx: seq<nat>, n: nat)
    requires n <= |s| && InRange(idx, n)
    ensures Select(s, idx) == Select(s[..n], idx)
  {
  }

  /** Sampling without replacement: the sampled elements form a sub-multiset of s. */
  lemma {:induction false} DrawWithoutReplacement<T>(s: seq<T>, idx: seq<nat>)
    requires Distinct(idx) && InRange(idx, |s|)
    ensures multiset(Select(s, idx)) <= multiset(s)
    decreases |s|
  {
    if |s| > 0 {
      var last := |s| - 1;
      var init := s[..last];
      assert s == init + [s[last]];
      if k :| 0 <= k < |idx| && idx[k] == last {
        WithoutLast(idx, k, last);
        DrawWithoutReplacement(init, Without(idx, k));
        SelectWithout(s, idx, k);
        SelectPrefix(s, Without(idx, k), last);
      } else {
        assert InRange(idx, last);
        DrawWithoutReplacement(init, idx);
        SelectPrefix(s, idx, last);
      }
    }
  }

  /** A draw of k distinct positions exists only when k <= population, which is why
      random.sample refuses a larger k. */
  lemma DrawSize(idx: seq<nat>, k: nat, population: nat)
    requires IsDraw(idx, k, population)
    ensures k <= population
  {
    var positions := seq(population, i => i);
    DrawWithoutReplacement(positions, idx);
    var drawn := multiset(Select(positions, idx));
    assert multiset(positions) == drawn + (multiset(positions) - drawn);
    assert |multiset(Select(positions, idx))| == |idx|;
  }
}
