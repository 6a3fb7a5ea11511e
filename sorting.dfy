/**
 * `Array.prototype.sort` with a numeric comparator `(a, b) => key(a) - key(b)` (or a
 * `localeCompare` comparator, with the collation order abstracted to an integer key).
 * It sorts the array in place.
 */
module Sorting {

  /** Every pair of positions is in key order. */
  predicate SortedBy<T>(s: seq<T>, key: T -> int) {
    forall x, y :: 0 <= x < y < |s| ==> key(s[x]) <= key(s[y])
  }

  /** Exchanges two elements; everything else stays where it was. */
  method Swap<T>(a: array<T>, p: nat, q: nat)
    requires p < a.Length && q < a.Length
    modifies a
    ensures a[p] == old(a[q]) && a[q] == old(a[p])
    ensures forall k :: 0 <= k < a.Length && k != p && k != q ==> a[k] == old(a[k])
    ensures multiset(a[..]) == multiset(old(a[..]))
  {
    a[p], a[q] := a[q], a[p];
  }

  /**
   * With `a[..i]` in key order, moves `a[i]` left past every element with a larger key,
   * leaving `a[..i + 1]` in key order and the rest of the array untouched.
   */
  method InsertAt<T>(a: array<T>, i: nat, key: T -> int)
    requires i < a.Length
    requires forall x, y :: 0 <= x < y < i ==> key(a[x]) <= key(a[y])
    modifies a
    ensures forall x, y :: 0 <= x < y <= i ==> key(a[x]) <= key(a[y])
    ensures forall k :: i < k < a.Length ==> a[k] == old(a[k])
    ensures multiset(a[..]) == multiset(old(a[..]))
  {
    var j := i;
    while j > 0 && key(a[j - 1]) > key(a[j])
      invariant 0 <= j <= i
      invariant forall x, y :: 0 <= x < y <= i && y != j ==> key(a[x]) <= key(a[y])
      invariant 0 < j < i ==> key(a[j - 1]) <= key(a[j + 1])
      invariant forall k :: i < k < a.Length ==> a[k] == old(a[k])
      invariant multiset(a[..]) == multiset(old(a[..]))
    {
      Swap(a, j - 1, j);
      j := j - 1;
    }
  }

  /** Sorts `a` in place by `key`: the result is in key order and a permutation of the input. */
  method SortByKey<T>(a: array<T>, key: T -> int)
    modifies a
    ensures SortedBy(a[..], key)
    ensures multiset(a[..]) == multiset(old(a[..]))
  {
    var i := 0;
    while i < a.Length
      invariant 0 <= i <= a.Length
      invariant forall x, y :: 0 <= x < y < i ==> key(a[x]) <= key(a[y])
      invariant multiset(a[..]) == multiset(old(a[..]))
    {
      InsertAt(a, i, key);
      i := i + 1;
    }
  }
}
