/**
  The candidate pairs of `measure_interactions`
  (python/interpret-core/interpret/utils/_measure_interactions.py, lines 238-246):
  `combinations(range(n), 2)`, the pairs `(i, j)` with `i < j < n` in lexicographic
  order. A term is a tuple of feature indices, modelled as a sequence.
 */
module Candidates {

  type Term = seq<int>

  predicate IsPairBelow(t: Term, n: nat) {
    |t| == 2 && 0 <= t[0] < t[1] < n
  }

  /** Both are pairs and `s` precedes `t` lexicographically. */
  predicate LexBefore(s: Term, t: Term) {
    |s| == 2 && |t| == 2 && (s[0] < t[0] || (s[0] == t[0] && s[1] < t[1]))
  }

  /** The pairs `(i, j)` with `i < j < n`, by increasing `j`. */
  function Row(i: nat, n: nat): (r: seq<Term>)
    requires i < n
  {
    seq(n - 1 - i, k requires 0 <= k < n - 1 - i => [i, i + 1 + k])
  }

  /** The pairs whose first index is at least `i`, in lexicographic order. */
  function PairsFrom(i: nat, n: nat): (r: seq<Term>)
    decreases n - i
    ensures forall t :: t in r ==> IsPairBelow(t, n) && i <= t[0]
    ensures forall p, q :: 0 <= p < q < |r| ==> LexBefore(r[p], r[q])
    ensures i <= n ==> 2 * |r| == (n - i) * (n - i - 1)
  {
    if n <= i then []
    else
      var row, rest := Row(i, n), PairsFrom(i + 1, n);
      var m := n - i - 1;
      assert 2 * |rest| == m * (m - 1);
      assert (m + 1) * m == 2 * m + m * (m - 1);
      var r := row + rest;
      assert forall p, q :: 0 <= p < q < |r| ==> LexBefore(r[p], r[q]) by {
        forall p, q | 0 <= p < q < |r| ensures LexBefore(r[p], r[q]) {
          if q < |row| {
          } else if p < |row| {
            assert r[q] in rest;
          } else {
            assert r[p] == rest[p - |row|] && r[q] == rest[q - |row|];
          }
        }
      }
      r
  }

  /** `combinations(range(n), 2)`: only pairs below `n`, strictly increasing in
      lexicographic order (so none twice), n * (n - 1) / 2 of them. */
  function Combinations2(n: nat): (r: seq<Term>)
    ensures forall t :: t in r ==> IsPairBelow(t, n)
    ensures forall p, q :: 0 <= p < q < |r| ==> LexBefore(r[p], r[q])
    ensures 2 * |r| == n * (n - 1)
  {
    PairsFrom(0, n)
  }

  /** No pair is enumerated twice. */
  lemma Combinations2Distinct(n: nat, p: nat, q: nat)
    requires p < |Combinations2(n)| && q < |Combinations2(n)| && p != q
    ensures Combinations2(n)[p] != Combinations2(n)[q]
  {
  }

  lemma {:induction false} PairsFromComplete(i: nat, n: nat, a: int, b: int)
    requires i <= a < b < n
    decreases a - i
    ensures [a, b] in PairsFrom(i, n)
  {
    var row, rest := Row(i, n), PairsFrom(i + 1, n);
    assert PairsFrom(i, n) == row + rest;
    if i == a {
      assert row[b - a - 1] == [a, b];
      assert [a, b] in row;
    } else {
      PairsFromComplete(i + 1, n, a, b);
      assert [a, b] in rest;
    }
  }

  /** Every pair `(a, b)` with `a < b < n` is enumerated. */
  lemma {:induction false} Combinations2Complete(n: nat, a: int, b: int)
    requires 0 <= a < b < n
    ensures [a, b] in Combinations2(n)
  {
    PairsFromComplete(0, n, a, b);
  }
}
