/** Sums over sequences, and what a permutation leaves unchanged. */
module Sums {

  /** The sum of f over s. */
  ghost function SumOf<T>(s: seq<T>, f: T -> int): int {
    if s == [] then 0 else f(s[0]) + SumOf(s[1..], f)
  }

  /** The elementwise image of s under f. */
  function MapSeq<T, U>(s: seq<T>, f: T -> U): (r: seq<U>)
    ensures |r| == |s|
    ensures forall i :: 0 <= i < |s| ==> r[i] == f(s[i])
  {
    seq(|s|, i requires 0 <= i < |s| => f(s[i]))
  }

  lemma SumOne<T>(x: T, f: T -> int)
    ensures SumOf([x], f) == f(x)
  {
    assert [x][1..] == [];
    assert SumOf([x][1..], f) == 0;
  }

  lemma {:induction false} SumAppend<T>(a: seq<T>, b: seq<T>, f: T -> int)
    ensures SumOf(a + b, f) == SumOf(a, f) + SumOf(b, f)
  {
    if a == [] {
      assert a + b == b;
    } else {
      assert (a + b)[1..] == a[1..] + b;
      SumAppend(a[1..], b, f);
    }
  }

  lemma {:induction false} SumSplitAt<T>(s: seq<T>, k: nat, f: T -> int)
    requires k < |s|
    ensures SumOf(s, f) == SumOf(s[..k] + s[k + 1..], f) + f(s[k])
  {
    assert s == s[..k] + ([s[k]] + s[k + 1..]);
    SumAppend(s[..k], [s[k]] + s[k + 1..], f);
    SumAppend(s[..k], s[k + 1..], f);
    assert ([s[k]] + s[k + 1..])[1..] == s[k + 1..];
  }

  /** Two sums compare as their summands do. */
  lemma {:induction false} SumCompare<T>(s: seq<T>, f: T -> int, g: T -> int)
    requires forall i :: 0 <= i < |s| ==> f(s[i]) <= g(s[i])
    ensures SumOf(s, f) <= SumOf(s, g)
    ensures SumOf(s, f) == SumOf(s, g) <==> forall i :: 0 <= i < |s| ==> f(s[i]) == g(s[i])
  {
    if s != [] {
      assert forall i :: 0 <= i < |s[1..]| ==> s[1..][i] == s[i + 1];
      SumCompare(s[1..], f, g);
      if SumOf(s, f) == SumOf(s, g) {
        forall i | 0 <= i < |s| ensures f(s[i]) == g(s[i]) {
          if i > 0 { assert s[1..][i - 1] == s[i]; }
        }
      }
    }
  }

  /** A balance that holds summand by summand holds of the sums. */
  lemma {:induction false} SumBalance<T>(s: seq<T>, f: T -> int, g: T -> int, h: T -> int, k: T -> int)
    requires forall i :: 0 <= i < |s| ==> f(s[i]) + g(s[i]) == h(s[i]) + k(s[i])
    ensures SumOf(s, f) + SumOf(s, g) == SumOf(s, h) + SumOf(s, k)
  {
    if s != [] {
      assert forall i :: 0 <= i < |s[1..]| ==> s[1..][i] == s[i + 1];
      SumBalance(s[1..], f, g, h, k);
    }
  }

  function RealSum(s: seq<real>): real {
    if s == [] then 0.0 else s[0] + RealSum(s[1..])
  }

  lemma {:induction false} RealSumAppend(a: seq<real>, b: seq<real>)
    ensures RealSum(a + b) == RealSum(a) + RealSum(b)
  {
    if a == [] {
      assert a + b == b;
    } else {
      assert (a + b)[1..] == a[1..] + b;
      RealSumAppend(a[1..], b);
    }
  }

  lemma RealSumLast(s: seq<real>)
    requires s != []
    ensures RealSum(s) == RealSum(s[..|s| - 1]) + s[|s| - 1]
  {
    var init, last := s[..|s| - 1], s[|s| - 1];
    assert s == init + [last];
    RealSumAppend(init, [last]);
    assert [last][1..] == [];
  }

  lemma MultisetDrop<T>(s: seq<T>, k: nat)
    requires k < |s|
    ensures multiset(s[..k] + s[k + 1..]) == multiset(s) - multiset{s[k]}
  {
    assert s == s[..k] + [s[k]] + s[k + 1..];
  }

  /** Where b has the first element of a; without it, the rest is still a permutation. */
  lemma Pick<T>(a: seq<T>, b: seq<T>) returns (k: nat)
    requires multiset(a) == multiset(b) && a != []
    ensures k < |b| && b[k] == a[0] && multiset(a[1..]) == multiset(b[..k] + b[k + 1..])
  {
    assert a[0] in multiset(b);
    k :| k < |b| && b[k] == a[0];
    MultisetDrop(b, k);
    MultisetTail(a);
  }

  /** A sum does not depend on the order of the summands. */
  lemma {:induction false} SumPermutation<T>(a: seq<T>, b: seq<T>, f: T -> int)
    requires multiset(a) == multiset(b)
    ensures SumOf(a, f) == SumOf(b, f)
    decreases |a|
  {
    if a == [] {
      assert |b| == |multiset(b)| == 0;
    } else {
      var k := Pick(a, b);
      SumSplitAt(b, k, f);
      SumPermutation(a[1..], b[..k] + b[k + 1..], f);
    }
  }

  lemma RealSumHead(x: real, s: seq<real>)
    ensures RealSum([x] + s) == x + RealSum(s)
  {
    assert ([x] + s)[1..] == s;
  }

  lemma RealSumWithout(s: seq<real>, k: nat)
    requires k < |s|
    ensures RealSum(s) == RealSum(s[..k] + s[k + 1..]) + s[k]
  {
    var before, after := s[..k], s[k + 1..];
    assert s == before + ([s[k]] + after);
    RealSumAppend(before, [s[k]] + after);
    RealSumAppend(before, after);
    RealSumHead(s[k], after);
  }

  lemma {:induction false} RealSumPermutation(a: seq<real>, b: seq<real>)
    requires multiset(a) == multiset(b)
    ensures RealSum(a) == RealSum(b)
    decreases |a|
  {
    if a == [] {
      assert |b| == |multiset(b)| == 0;
    } else {
      var k := Pick(a, b);
      RealSumWithout(b, k);
      RealSumPermutation(a[1..], b[..k] + b[k + 1..]);
    }
  }

  lemma MapDrop<T, U>(s: seq<T>, k: nat, f: T -> U)
    requires k < |s|
    ensures multiset(MapSeq(s, f)) == multiset(MapSeq(s[..k] + s[k + 1..], f)) + multiset{f(s[k])}
  {
    var image := MapSeq(s, f);
    MultisetDrop(image, k);
    assert MapSeq(s[..k] + s[k + 1..], f) == image[..k] + image[k + 1..];
    assert image[k] in multiset(image);
  }

  /** The image of a permutation is a permutation of the image. */
  lemma {:induction false} MapPermutation<T, U>(a: seq<T>, b: seq<T>, f: T -> U)
    requires multiset(a) == multiset(b)
    ensures multiset(MapSeq(a, f)) == multiset(MapSeq(b, f))
    decreases |a|
  {
    if a == [] {
      assert |b| == |multiset(b)| == 0;
    } else {
      var k := Pick(a, b);
      assert a[..0] + a[1..] == a[1..];
      MapDrop(a, 0, f);
      MapDrop(b, k, f);
      MapPermutation(a[1..], b[..k] + b[k + 1..], f);
    }
  }

  ghost predicate NonIncreasing(s: seq<int>) {
    forall i, j :: 0 <= i < j < |s| ==> s[i] >= s[j]
  }

  lemma SameHead(a: seq<int>, b: seq<int>)
    requires multiset(a) == multiset(b) && a != [] && b != []
    requires NonIncreasing(a) && NonIncreasing(b)
    ensures a[0] == b[0]
  {
    assert a[0] in multiset(b) && b[0] in multiset(a);
    var i :| 0 <= i < |a| && a[i] == b[0];
    var j :| 0 <= j < |b| && b[j] == a[0];
  }

  lemma SameLength<T>(a: seq<T>, b: seq<T>)
    requires multiset(a) == multiset(b)
    ensures |a| == |b|
  {
    assert |a| == |multiset(a)|;
    assert |b| == |multiset(b)|;
  }

  lemma MultisetTail<T>(s: seq<T>)
    requires s != []
    ensures multiset(s[1..]) == multiset(s) - multiset{s[0]}
  {
    assert s == [s[0]] + s[1..];
  }

  lemma TailPermutation<T>(a: seq<T>, b: seq<T>)
    requires multiset(a) == multiset(b) && a != [] && b != [] && a[0] == b[0]
    ensures multiset(a[1..]) == multiset(b[1..])
  {
    MultisetTail(a);
    MultisetTail(b);
  }

  /** There is only one way to sort a collection of integers. */
  lemma {:induction false} SortedIsUnique(a: seq<int>, b: seq<int>)
    requires multiset(a) == multiset(b)
    requires NonIncreasing(a) && NonIncreasing(b)
    ensures a == b
    decreases |a|
  {
    SameLength(a, b);
    if a != [] {
      SameHead(a, b);
      TailPermutation(a, b);
      TailSorted(a);
      TailSorted(b);
      SortedIsUnique(a[1..], b[1..]);
      assert a == [a[0]] + a[1..];
      assert b == [b[0]] + b[1..];
    }
  }

  lemma TailSorted(s: seq<int>)
    requires NonIncreasing(s) && s != []
    ensures NonIncreasing(s[1..])
  {
    forall i, j | 0 <= i < j < |s[1..]| ensures s[1..][i] >= s[1..][j] {
      assert s[i + 1] >= s[j + 1];
    }
  }

  ghost predicate Distinct<T>(s: seq<T>) {
    forall i, j :: 0 <= i < j < |s| ==> s[i] != s[j]
  }

  lemma {:induction false} MultiplicityOfDistinct<T>(s: seq<T>, x: T)
    requires Distinct(s)
    ensures multiset(s)[x] <= 1
  {
    if s != [] {
      MultiplicityOfDistinct(s[1..], x);
      assert s == [s[0]] + s[1..];
      if s[0] == x {
        assert x !in s[1..];
      }
    }
  }

  lemma RepeatedTwice<T>(s: seq<T>, i: nat, j: nat)
    requires i < j < |s| && s[i] == s[j]
    ensures multiset(s)[s[i]] >= 2
  {
    assert s == s[..j] + s[j..];
    assert s[..j][i] == s[i] && s[j..][0] == s[i];
    assert s[i] in s[..j] && s[i] in s[j..];
  }

  lemma DistinctPermutation<T>(a: seq<T>, b: seq<T>)
    requires multiset(a) == multiset(b) && Distinct(a)
    ensures Distinct(b)
  {
    forall i, j | 0 <= i < j < |b| ensures b[i] != b[j] {
      MultiplicityOfDistinct(a, b[i]);
      if b[i] == b[j] {
        RepeatedTwice(b, i, j);
        assert false;
      }
    }
  }
}
