/** The `orderBy: { createdAt: 'desc' }` clause of the store queries: records come
    back newest first. The store does not say how it breaks ties. The insertion sort
    here puts each record before the later-stored records with the same timestamp,
    and the contracts promise only what the query promises. */
module Ordering {

  /** Every record is at least as new as the ones after it. */
  predicate NewestFirst<T>(xs: seq<T>, key: T -> nat) {
    forall i, j :: 0 <= i < j < |xs| ==> key(xs[i]) >= key(xs[j])
  }

  /** Each record is at least as new as its successor. */
  predicate StepwiseNewestFirst<T>(xs: seq<T>, key: T -> nat) {
    forall i :: 0 < i < |xs| ==> key(xs[i - 1]) >= key(xs[i])
  }

  lemma {:induction false} StepwiseIsNewestFirst<T>(xs: seq<T>, key: T -> nat)
    requires StepwiseNewestFirst(xs, key)
    ensures NewestFirst(xs, key)
  {
    if xs != [] {
      StepwiseIsNewestFirst(xs[1..], key);
      forall j | 0 < j < |xs| ensures key(xs[0]) >= key(xs[j]) {
        if j > 1 {
          assert xs[1..][0] == xs[1] && xs[1..][j - 1] == xs[j];
        }
      }
      forall i, j | 0 < i < j < |xs| ensures key(xs[i]) >= key(xs[j]) {
        assert xs[1..][i - 1] == xs[i] && xs[1..][j - 1] == xs[j];
      }
    }
  }

  /** Places `x` in a newest-first sequence, after the records strictly newer and
      before those of the same age. */
  function Insert<T>(x: T, xs: seq<T>, key: T -> nat): (r: seq<T>)
    requires StepwiseNewestFirst(xs, key)
    ensures StepwiseNewestFirst(r, key)
    ensures |r| == |xs| + 1 && (r[0] == x || (xs != [] && r[0] == xs[0]))
    ensures multiset(r) == multiset(xs) + multiset{x}
  {
    if xs == [] || key(x) >= key(xs[0]) then
      [x] + xs
    else
      assert xs == [xs[0]] + xs[1..];
      [xs[0]] + Insert(x, xs[1..], key)
  }

  /** The records of `xs`, newest first: the same records, ordered by `key` descending. */
  function SortNewestFirst<T>(xs: seq<T>, key: T -> nat): (r: seq<T>)
    ensures StepwiseNewestFirst(r, key)
    ensures multiset(r) == multiset(xs)
    ensures |r| == |xs|
  {
    if xs == [] then []
    else
      assert xs == [xs[0]] + xs[1..];
      Insert(xs[0], SortNewestFirst(xs[1..], key), key)
  }

  /** What a newest-first query returns: a permutation of the records, ordered by `key` descending. */
  lemma SortedQuery<T>(xs: seq<T>, key: T -> nat)
    ensures NewestFirst(SortNewestFirst(xs, key), key)
    ensures multiset(SortNewestFirst(xs, key)) == multiset(xs)
  {
    StepwiseIsNewestFirst(SortNewestFirst(xs, key), key);
  }
}
