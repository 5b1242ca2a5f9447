/** Picking some elements of a list by their places, in their order. */
module Selections {

  /** What mask picks from the first n elements of from. */
  function Filter<T>(from: seq<T>, mask: seq<bool>, n: nat): seq<T>
    requires n <= |from| && n <= |mask|
  {
    if n == 0 then []
    else if mask[n - 1] then Filter(from, mask, n - 1) + [from[n - 1]]
    else Filter(from, mask, n - 1)
  }

  /** The picked places of v among the first n. */
  function Places<T(==)>(from: seq<T>, mask: seq<bool>, n: nat, v: T): (places: set<nat>)
    requires n <= |from| && n <= |mask|
    ensures forall i: nat :: i in places <==> i < n && mask[i] && from[i] == v
  {
    if n == 0 then {}
    else if mask[n - 1] && from[n - 1] == v then Places(from, mask, n - 1, v) + {n - 1}
    else Places(from, mask, n - 1, v)
  }

  /** Each element is picked once for each of its places that is. */
  lemma {:induction false} FilterCounts<T>(from: seq<T>, mask: seq<bool>, n: nat, v: T)
    requires n <= |from| && n <= |mask|
    ensures multiset(Filter(from, mask, n))[v] == |Places(from, mask, n, v)|
  {
    if n > 0 { FilterCounts(from, mask, n - 1, v); }
  }

  /** Elements after the first n play no part. */
  lemma {:induction false} FilterPrefix<T>(from: seq<T>, mask: seq<bool>, m: nat, n: nat)
    requires n <= m <= |from| && m <= |mask|
    ensures Filter(from[..m], mask[..m], n) == Filter(from, mask, n)
  {
    if n > 0 { FilterPrefix(from, mask, m, n - 1); }
  }

  lemma {:induction false} FilterAll<T>(from: seq<T>, mask: seq<bool>, n: nat)
    requires n <= |from| && n <= |mask| && forall i :: 0 <= i < n ==> mask[i]
    ensures Filter(from, mask, n) == from[..n]
  {
    if n > 0 {
      FilterAll(from, mask, n - 1);
      assert from[..n] == from[..n - 1] + [from[n - 1]];
    }
  }
}
