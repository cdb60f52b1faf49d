/** Ordering by a numeric position, as `Array.prototype.sort` with the
    comparator `(a, b) => a.position - b.position` does it. */
module Ordering {

  /** `s` is in ascending order of `key`. */
  predicate SortedBy<T>(s: seq<T>, key: T -> real) {
    forall k, l :: 0 <= k < l < |s| ==> key(s[k]) <= key(s[l])
  }

  /** The first `n` elements of `s` are in ascending order of `key`. */
  predicate SortedPrefix<T>(s: seq<T>, n: nat, key: T -> real) {
    forall k, l :: 0 <= k < l < n && l < |s| ==> key(s[k]) <= key(s[l])
  }

  /** `s` is in strictly ascending order of `key`. */
  predicate StrictlySortedBy<T>(s: seq<T>, key: T -> real) {
    forall k, l :: 0 <= k < l < |s| ==> key(s[k]) < key(s[l])
  }

  /** Exchanges `a[j - 1]` and `a[j]`. */
  method SwapDown<T>(a: array<T>, j: int)
    requires 0 < j < a.Length
    modifies a
    ensures a[..] == old(a[..])[j - 1 := old(a[j])][j := old(a[j - 1])]
    ensures multiset(a[..]) == multiset(old(a[..]))
  {
    a[j - 1], a[j] := a[j], a[j - 1];
  }

  /** One insertion step: with `a[..i]` sorted, moves `a[i]` left past the
      strictly larger keys, so `a[..i + 1]` is sorted; nothing from `i + 1`
      on moves. */
  method InsertAt<T>(a: array<T>, i: int, key: T -> real)
    requires 0 <= i < a.Length && SortedPrefix(a[..], i, key)
    modifies a
    ensures SortedPrefix(a[..], i + 1, key)
    ensures multiset(a[..]) == multiset(old(a[..]))
    ensures a[i + 1..] == old(a[i + 1..])
  {
    var j := i;
    while j > 0 && key(a[j - 1]) > key(a[j])
      invariant 0 <= j <= i
      invariant forall k, l :: 0 <= k < l <= i && l != j ==> key(a[k]) <= key(a[l])
      invariant 0 < j < i ==> key(a[j - 1]) <= key(a[j + 1])
      invariant multiset(a[..]) == multiset(old(a[..]))
      invariant a[i + 1..] == old(a[i + 1..])
    {
      SwapDown(a, j);
      j := j - 1;
    }
  }

  /** Sorts `a` in place by `key`: afterwards it is ascending and holds the
      same elements. An element moves left only past a strictly larger
      key, so the loop never moves an element past an equal key; stability
      is not proved here. */
  method SortInPlace<T>(a: array<T>, key: T -> real)
    modifies a
    ensures SortedBy(a[..], key)
    ensures multiset(a[..]) == multiset(old(a[..]))
  {
    var i := 0;
    while i < a.Length
      invariant 0 <= i <= a.Length
      invariant SortedPrefix(a[..], i, key)
      invariant multiset(a[..]) == multiset(old(a[..]))
    {
      InsertAt(a, i, key);
      i := i + 1;
    }
  }
}
