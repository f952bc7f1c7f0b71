/** The ranking that `normalised_marks` derives from `numpy.argsort`:
    an argsort is any permutation of the indices that lists the values in
    ascending order, and writing `n` at position `order[n]` yields each
    element's rank. */
module Ranking {

  /** Every entry of `order` is an index into a sequence of length `k`. */
  predicate IndicesBelow(order: seq<nat>, k: nat) {
    forall n :: 0 <= n < |order| ==> order[n] < k
  }

  predicate Distinct(s: seq<nat>) {
    forall n, m :: 0 <= n < m < |s| ==> s[n] != s[m]
  }

  /** `p` lists each of 0, 1, ..., k-1 exactly once. */
  predicate IsPermutation(p: seq<nat>, k: nat) {
    && |p| == k
    && IndicesBelow(p, k)
    && Distinct(p)
    && forall a: nat :: a < k ==> a in p
  }

  /** The values `ys` read through `order` are in ascending order. */
  predicate SortedBy(ys: seq<real>, order: seq<nat>)
    requires IndicesBelow(order, |ys|)
  {
    forall n, m :: 0 <= n < m < |order| ==> ys[order[n]] <= ys[order[m]]
  }

  /** What `numpy.argsort(ys)` promises: a permutation of the indices of
      `ys` that sorts it ascending. Equal values may come in either order. */
  predicate IsArgSort(ys: seq<real>, order: seq<nat>) {
    IsPermutation(order, |ys|) && SortedBy(ys, order)
  }

  /** Inserts index `j` into the ascending list `p`, after the entries
      whose values are not greater than `ys[j]`. */
  function Insert(ys: seq<real>, j: nat, p: seq<nat>): (r: seq<nat>)
    requires j < |ys| && IndicesBelow(p, |ys|)
    ensures |r| == |p| + 1
    ensures forall a :: a in r <==> a == j || a in p
  {
    if p == [] then [j]
    else if ys[j] < ys[p[0]] then [j] + p
    else [p[0]] + Insert(ys, j, p[1..])
  }

  /** Inserting keeps the list ascending and made of indices of `ys`. */
  lemma {:induction false} InsertSorted(ys: seq<real>, j: nat, p: seq<nat>)
    requires j < |ys| && IndicesBelow(p, |ys|) && SortedBy(ys, p)
    ensures IndicesBelow(Insert(ys, j, p), |ys|) && SortedBy(ys, Insert(ys, j, p))
  {
    if p != [] && ys[p[0]] <= ys[j] {
      InsertSorted(ys, j, p[1..]);
      var rest := Insert(ys, j, p[1..]);
      forall n | 0 <= n < |rest| ensures ys[p[0]] <= ys[rest[n]] {
        assert rest[n] in rest;
        if rest[n] != j {
          var m :| 0 <= m < |p[1..]| && p[1..][m] == rest[n];
          assert p[m + 1] == rest[n];
        }
      }
    }
  }

  /** Inserting an index not yet listed keeps the entries distinct. */
  lemma {:induction false} InsertDistinct(ys: seq<real>, j: nat, p: seq<nat>)
    requires j < |ys| && IndicesBelow(p, |ys|) && Distinct(p) && j !in p
    ensures Distinct(Insert(ys, j, p))
  {
    if p != [] && ys[p[0]] <= ys[j] {
      InsertDistinct(ys, j, p[1..]);
      var rest := Insert(ys, j, p[1..]);
      assert p[0] !in rest by {
        assert p[0] != j && p[0] !in p[1..];
      }
    }
  }

  /** Insertion sort of the indices 0..n-1 by their values in `ys`. */
  function ArgSortPrefix(ys: seq<real>, n: nat): (r: seq<nat>)
    requires n <= |ys|
    ensures |r| == n && IndicesBelow(r, |ys|) && Distinct(r)
    ensures forall a: nat :: a in r <==> a < n
    ensures SortedBy(ys, r)
  {
    if n == 0 then []
    else
      var prefix := ArgSortPrefix(ys, n - 1);
      InsertSorted(ys, n - 1, prefix);
      InsertDistinct(ys, n - 1, prefix);
      Insert(ys, n - 1, prefix)
  }

  /** One particular argsort, which places equal values in the order of
      their indices. It shows that an ArgSorter exists. */
  function ArgSort(ys: seq<real>): (order: seq<nat>)
    ensures IsArgSort(ys, order)
  {
    ArgSortPrefix(ys, |ys|)
  }

  /** An implementation of `numpy.argsort`: on every input, a permutation of
      the indices that sorts the values. Which of two equal values comes first
      is left to the implementation; numpy's default sort does not promise
      a stable order. */
  type ArgSorter = f: seq<real> -> seq<nat> | forall ys {:trigger IsArgSort(ys, f(ys))} :: IsArgSort(ys, f(ys)) witness ArgSort

  /** The position of `a` in `p`. */
  function IndexOf(p: seq<nat>, a: nat): (n: nat)
    requires a in p
    ensures n < |p| && p[n] == a
    ensures forall m :: 0 <= m < n ==> p[m] != a
  {
    if p[0] == a then 0 else 1 + IndexOf(p[1..], a)
  }

  /** The ranks that the loop `for n, ind in enumerate(order): _marks[ind] = n`
      writes: the inverse permutation of `order`. */
  function Ranks(order: seq<nat>): (ranks: seq<nat>)
    requires IsPermutation(order, |order|)
    ensures |ranks| == |order|
  {
    seq(|order|, a requires 0 <= a < |order| => IndexOf(order, a))
  }

  /** Rank `n` is written at `order[n]`, and nowhere else. */
  lemma RanksInvert(order: seq<nat>, n: nat)
    requires IsPermutation(order, |order|) && n < |order|
    ensures Ranks(order)[order[n]] == n
  {
    var m := IndexOf(order, order[n]);
    assert order[m] == order[n];
  }

  /** The ranks of a bin with k elements are a permutation of 0..k-1. */
  lemma RanksArePermutation(order: seq<nat>)
    requires IsPermutation(order, |order|)
    ensures IsPermutation(Ranks(order), |order|)
  {
    var ranks, k := Ranks(order), |order|;
    forall a, b | 0 <= a < b < k ensures ranks[a] != ranks[b] {
      assert order[ranks[a]] == a && order[ranks[b]] == b;
    }
    forall n: nat | n < k ensures n in ranks {
      RanksInvert(order, n);
      assert ranks[order[n]] == n;
    }
  }

  /** A strictly smaller value gets a strictly smaller rank; equal values
      may be ranked either way. */
  lemma RanksRespectOrder(ys: seq<real>, order: seq<nat>, a: nat, b: nat)
    requires IsArgSort(ys, order)
    requires a < |ys| && b < |ys| && ys[a] < ys[b]
    ensures Ranks(order)[a] < Ranks(order)[b]
  {
    var ra, rb := Ranks(order)[a], Ranks(order)[b];
    assert order[ra] == a && order[rb] == b;
  }

  /** Rank 0 belongs to a smallest value and rank k-1 to a largest. */
  lemma RankExtremes(ys: seq<real>, order: seq<nat>, a: nat)
    requires IsArgSort(ys, order) && a < |ys|
    ensures Ranks(order)[a] == 0 ==> forall b :: 0 <= b < |ys| ==> ys[a] <= ys[b]
    ensures Ranks(order)[a] == |ys| - 1 ==> forall b :: 0 <= b < |ys| ==> ys[b] <= ys[a]
  {
    forall b | 0 <= b < |ys| && ys[b] < ys[a] ensures Ranks(order)[a] != 0 {
      RanksRespectOrder(ys, order, b, a);
    }
    forall b | 0 <= b < |ys| && ys[a] < ys[b] ensures Ranks(order)[a] != |ys| - 1 {
      RanksRespectOrder(ys, order, a, b);
      RanksArePermutation(order);
    }
  }
}
