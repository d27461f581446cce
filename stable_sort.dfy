/**
 * `Array.prototype.sort` with a numeric comparator, which ECMAScript requires
 * to be stable: elements are put in ascending order of a key, and elements
 * with equal keys keep their original relative order. Modelled as an in-place
 * insertion sort; the ghost permutation it returns records where each element
 * came from, which is what stability is stated about.
 */
module StableSort {

  /** `perm` is a bijection on the positions `0 .. n-1`. */
  ghost predicate IsPermutation(perm: seq<nat>, n: nat) {
    && |perm| == n
    && (forall k :: 0 <= k < n ==> perm[k] < n)
    && (forall k, l :: 0 <= k < l < n ==> perm[k] != perm[l])
  }

  /**
   * In a stable ascending sort, `x` (originally at position `i`) belongs before
   * `y` (originally at position `j`).
   */
  predicate Precedes<T>(key: T -> int, x: T, i: nat, y: T, j: nat) {
    key(x) < key(y) || (key(x) == key(y) && i < j)
  }

  /**
   * `r` is `s` stably sorted by `key`: `r[k]` is the element that stood at
   * `perm[k]` in `s`, and every pair of output positions is in key order, with
   * ties in original order.
   */
  ghost predicate StablySorted<T>(r: seq<T>, s: seq<T>, key: T -> int, perm: seq<nat>) {
    && |r| == |s|
    && IsPermutation(perm, |s|)
    && (forall k :: 0 <= k < |r| ==> r[k] == s[perm[k]])
    && (forall k, l :: 0 <= k < l < |r| ==> Precedes(key, r[k], perm[k], r[l], perm[l]))
  }

  /** Every position of `r` holds the element of `s` that `perm` says it came from. */
  ghost predicate Placed<T>(r: seq<T>, s: seq<T>, perm: seq<nat>) {
    |r| == |s| == |perm| && forall k :: 0 <= k < |r| ==> perm[k] < |s| && r[k] == s[perm[k]]
  }

  /** The first `i` positions hold the first `i` originals; the rest are untouched. */
  ghost predicate Settled(perm: seq<nat>, i: nat) {
    && i <= |perm|
    && (forall k :: 0 <= k < i ==> perm[k] < i)
    && (forall k :: i <= k < |perm| ==> perm[k] == k)
    && (forall k, l :: 0 <= k < l < i ==> perm[k] != perm[l])
  }

  ghost predicate SortedPrefix<T>(r: seq<T>, key: T -> int, perm: seq<nat>, i: nat)
    requires i <= |r| && i <= |perm|
  {
    forall k, l :: 0 <= k < l < i ==> Precedes(key, r[k], perm[k], r[l], perm[l])
  }

  method SortBy<T>(a: array<T>, key: T -> int) returns (ghost perm: seq<nat>)
    modifies a
    ensures StablySorted(a[..], old(a[..]), key, perm)
  {
    ghost var s := a[..];
    perm := seq(a.Length, k => k);
    var i := 0;
    while i < a.Length
      invariant 0 <= i <= a.Length
      invariant Placed(a[..], s, perm) && Settled(perm, i)
      invariant SortedPrefix(a[..], key, perm, i)
    {
      perm := Insert(a, key, i, s, perm);
      i := i + 1;
    }
  }

  /**
   * Halfway through moving the element at `i` left: it now sits at `j`, every
   * element right of it has a larger key, and the other elements of the first
   * `i + 1` positions are in order.
   */
  ghost predicate Sifting<T>(r: seq<T>, key: T -> int, perm: seq<nat>, i: nat, j: nat) {
    && j <= i < |r| && |perm| == |r|
    && perm[j] == i
    && (forall k :: 0 <= k <= i && k != j ==> perm[k] < i)
    && (forall k :: i < k < |perm| ==> perm[k] == k)
    && (forall k, l :: 0 <= k < l <= i ==> perm[k] != perm[l])
    && (forall k, l :: 0 <= k < l <= i && k != j && l != j ==> Precedes(key, r[k], perm[k], r[l], perm[l]))
    && (forall l :: j < l <= i ==> key(r[j]) < key(r[l]))
  }

  /** Exchanges the entries at `j - 1` and `j`. */
  function SwapDown<T>(r: seq<T>, j: nat): (r': seq<T>)
    requires 0 < j < |r|
    ensures |r'| == |r|
  {
    r[j - 1 := r[j]][j := r[j - 1]]
  }

  lemma SiftStart<T>(r: seq<T>, key: T -> int, perm: seq<nat>, i: nat)
    requires i < |r| == |perm| && Settled(perm, i) && SortedPrefix(r, key, perm, i)
    ensures Sifting(r, key, perm, i, i)
  {
  }

  lemma SiftStep<T>(r: seq<T>, key: T -> int, perm: seq<nat>, i: nat, j: nat)
    requires Sifting(r, key, perm, i, j) && 0 < j && key(r[j - 1]) > key(r[j])
    ensures Sifting(SwapDown(r, j), key, SwapDown(perm, j), i, j - 1)
  {
  }

  lemma SiftDone<T>(r: seq<T>, key: T -> int, perm: seq<nat>, i: nat, j: nat)
    requires Sifting(r, key, perm, i, j) && (j == 0 || key(r[j - 1]) <= key(r[j]))
    ensures Settled(perm, i + 1) && SortedPrefix(r, key, perm, i + 1)
  {
    forall k | 0 <= k < j
      ensures Precedes(key, r[k], perm[k], r[j], perm[j])
    {
      if k < j - 1 {
        assert Precedes(key, r[k], perm[k], r[j - 1], perm[j - 1]);
      }
    }
  }

  /** One pass of insertion sort: moves `a[i]` left into the sorted prefix. */
  method Insert<T>(a: array<T>, key: T -> int, i: nat, ghost s: seq<T>, ghost perm0: seq<nat>)
    returns (ghost perm: seq<nat>)
    requires i < a.Length
    requires Placed(a[..], s, perm0) && Settled(perm0, i)
    requires SortedPrefix(a[..], key, perm0, i)
    modifies a
    ensures Placed(a[..], s, perm) && Settled(perm, i + 1)
    ensures SortedPrefix(a[..], key, perm, i + 1)
  {
    perm := perm0;
    SiftStart(a[..], key, perm, i);
    var j := i;
    while j > 0 && key(a[j - 1]) > key(a[j])
      invariant 0 <= j <= i
      invariant Placed(a[..], s, perm) && Sifting(a[..], key, perm, i, j)
    {
      ghost var r := a[..];
      SiftStep(r, key, perm, i, j);
      a[j - 1], a[j] := a[j], a[j - 1];
      assert a[..] == SwapDown(r, j);
      perm := SwapDown(perm, j);
      j := j - 1;
    }
    SiftDone(a[..], key, perm, i, j);
  }
}
