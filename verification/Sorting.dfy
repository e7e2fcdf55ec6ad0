/** What sort.Slice promises: some sorted order of the same elements. Equal elements may land in any order. */
module Sorting {

  ghost predicate OrderOn<T>(s: seq<T>, leq: (T, T) -> bool) {
    && (forall x, y :: x in s && y in s ==> leq(x, y) || leq(y, x))
    && (forall x, y, z :: x in s && y in s && z in s && leq(x, y) && leq(y, z) ==> leq(x, z))
  }

  ghost predicate Sorted<T>(s: seq<T>, leq: (T, T) -> bool) {
    forall i, j :: 0 <= i < j < |s| ==> leq(s[i], s[j])
  }

  lemma InsertKeepsSorted<T>(s: seq<T>, x: T, k: nat, leq: (T, T) -> bool)
    requires k <= |s| && Sorted(s, leq) && OrderOn(s + [x], leq)
    requires forall i :: 0 <= i < k ==> leq(s[i], x)
    requires k < |s| ==> !leq(s[k], x)
    ensures Sorted(s[..k] + [x] + s[k..], leq)
  {
    assert forall i :: 0 <= i < |s| ==> s[i] in s + [x];
    assert x in s + [x];
    forall i | k <= i < |s| ensures leq(x, s[i]) {
      assert leq(x, s[k]);
      assert k < i ==> leq(s[k], s[i]);
    }
    var r := s[..k] + [x] + s[k..];
    forall i, j | 0 <= i < j < |r| ensures leq(r[i], r[j]) {
      assert r[i] == if i < k then s[i] else if i == k then x else s[i - 1];
      assert r[j] == if j < k then s[j] else if j == k then x else s[j - 1];
    }
  }

  lemma InsertKeepsElements<T>(s: seq<T>, x: T, k: nat)
    requires k <= |s|
    ensures multiset(s[..k] + [x] + s[k..]) == multiset(s) + multiset{x}
  {
    assert s == s[..k] + s[k..];
  }

  lemma SameElements<T>(sorted: seq<T>, s: seq<T>, n: nat)
    requires n < |s| && multiset(sorted) == multiset(s[..n])
    ensures forall x :: x in sorted + [s[n]] ==> x in s
  {
    forall x | x in sorted ensures x in s { assert x in multiset(s[..n]); }
  }

  /** Only the contract models sort.Slice; callers learn nothing about the order of equal elements. */
  method SortSlice<T>(s: seq<T>, leq: (T, T) -> bool) returns (sorted: seq<T>)
    requires OrderOn(s, leq)
    ensures multiset(sorted) == multiset(s) && Sorted(sorted, leq)
  {
    sorted := [];
    for n := 0 to |s|
      invariant multiset(sorted) == multiset(s[..n])
      invariant Sorted(sorted, leq)
    {
      var k := 0;
      while k < |sorted| && leq(sorted[k], s[n])
        invariant 0 <= k <= |sorted|
        invariant forall i :: 0 <= i < k ==> leq(sorted[i], s[n])
      {
        k := k + 1;
      }
      SameElements(sorted, s, n);
      InsertKeepsSorted(sorted, s[n], k, leq);
      InsertKeepsElements(sorted, s[n], k);
      assert s[..n + 1] == s[..n] + [s[n]];
      sorted := sorted[..k] + [s[n]] + sorted[k..];
    }
    assert s[..|s|] == s;
  }
}
