// Small vocabulary shared by the rest of the model: an optional value,
// duplicate-freedom of a sequence and index permutations.
module Basics {

  datatype Option<T> = None | Some(value: T)

  function Min(a: int, b: int): int { if a <= b then a else b }

  function Max(a: int, b: int): int { if a <= b then b else a }

  /** No element occurs twice in `s`. */
  predicate Distinct<T(==)>(s: seq<T>) {
    forall i, j :: 0 <= i < j < |s| ==> s[i] != s[j]
  }

  /** `order` lists every index below `n` exactly once: the reordering of an
      n-element array that any call of `Array.prototype.sort` may produce. */
  predicate IsPermutation(order: seq<nat>, n: nat) {
    && |order| == n
    && (forall i :: 0 <= i < n ==> order[i] < n)
    && Distinct(order)
  }

  /** A duplicate-free list of numbers all below `b` has at most `b` entries. */
  lemma {:induction false} DistinctBound(s: seq<nat>, b: nat)
    requires Distinct(s)
    requires forall i :: 0 <= i < |s| ==> s[i] < b
    ensures |s| <= b
    decreases b
  {
    if |s| > 0 {
      assert s[0] < b;
      if j :| 0 <= j < |s| && s[j] == b - 1 {
        var t := RemoveAt(s, j);
        assert forall i :: 0 <= i < |t| ==> t[i] < b - 1;
        DistinctBound(t, b - 1);
      } else {
        DistinctBound(s, b - 1);
      }
    }
  }

  /** `s` without its element at position `j`. */
  function RemoveAt<T>(s: seq<T>, j: nat): (t: seq<T>)
    requires j < |s|
    ensures |t| == |s| - 1
    ensures forall i :: 0 <= i < |t| ==> t[i] == if i < j then s[i] else s[i + 1]
    ensures Distinct(s) ==> Distinct(t)
    ensures multiset(s) == multiset(t) + multiset{s[j]}
  {
    assert s == s[..j] + [s[j]] + s[j + 1..];
    s[..j] + s[j + 1..]
  }

  /** Reading `s` through a permutation `order` of its indices reorders it:
      the result holds the same elements, as often as `s` does. */
  lemma {:induction false} ReorderKeepsMultiset<T>(s: seq<T>, order: seq<nat>, p: seq<T>)
    requires IsPermutation(order, |s|)
    requires |p| == |s|
    requires forall i :: 0 <= i < |s| ==> p[i] == s[order[i]]
    ensures multiset(p) == multiset(s)
    decreases |s|
  {
    var n := |s|;
    if n > 0 {
      if !exists m :: 0 <= m < n && order[m] == n - 1 {
        DistinctBound(order, n - 1);
        assert false;
      }
      var m :| 0 <= m < n && order[m] == n - 1;
      var order' := RemoveAt(order, m);
      var p' := RemoveAt(p, m);
      var s' := s[..n - 1];
      assert IsPermutation(order', n - 1);
      ReorderKeepsMultiset(s', order', p');
      assert s == s' + [s[n - 1]];
    }
  }

  /** A prefix of a duplicate-free sequence is duplicate-free. */
  lemma DistinctPrefix<T>(s: seq<T>, k: nat)
    requires Distinct(s) && k <= |s|
    ensures Distinct(s[..k])
  {
  }
}
