/** The greedy split of one request over a row of free amounts, on plain integers. */
module Greedy {
  import opened Sums

  function Min(a: int, b: int): int {
    if a < b then a else b
  }

  /** What each position gives when the request is served from left to right. */
  function Take(free: seq<int>, request: int): (taken: seq<int>)
    ensures |taken| == |free|
  {
    if free == [] then []
    else
      var amount := Min(request, free[0]);
      [amount] + Take(free[1..], request - amount)
  }

  function Total(s: seq<int>): int {
    if s == [] then 0 else s[0] + Total(s[1..])
  }

  function CountPositive(s: seq<int>): nat {
    if s == [] then 0 else (if s[0] > 0 then 1 else 0) + CountPositive(s[1..])
  }

  ghost predicate NonNegative(s: seq<int>) {
    forall i :: 0 <= i < |s| ==> 0 <= s[i]
  }

  ghost predicate Whole(s: seq<int>) {
    forall i :: 0 <= i < |s| ==> s[i] % 1000 == 0
  }

  /** plan hands out non-negative amounts, nowhere more than what is free. */
  ghost predicate Within(plan: seq<int>, free: seq<int>) {
    && |plan| == |free|
    && forall i :: 0 <= i < |plan| ==> 0 <= plan[i] <= free[i]
  }

  lemma {:induction false} TotalNonNegative(s: seq<int>)
    requires NonNegative(s)
    ensures 0 <= Total(s)
    ensures Total(s) == 0 <==> forall i :: 0 <= i < |s| ==> s[i] == 0
  {
    if s != [] {
      TotalNonNegative(s[1..]);
      assert forall i :: 0 <= i < |s[1..]| ==> s[1..][i] == s[i + 1];
      if Total(s) == 0 {
        forall i | 0 <= i < |s| ensures s[i] == 0 {
          if i > 0 { assert s[1..][i - 1] == s[i]; }
        }
      }
    }
  }

  /** The split stays within what is free and hands out all it can. */
  lemma {:induction false} TakeIsExact(free: seq<int>, request: int)
    requires NonNegative(free) && 0 <= request
    ensures Within(Take(free, request), free)
    ensures Total(Take(free, request)) == Min(request, Total(free))
  {
    if free != [] {
      TotalNonNegative(free);
      TotalNonNegative(free[1..]);
      TakeIsExact(free[1..], request - Min(request, free[0]));
    }
  }

  lemma {:induction false} TakeIsWhole(free: seq<int>, request: int)
    requires Whole(free) && request % 1000 == 0
    ensures Whole(Take(free, request))
  {
    if free != [] {
      TakeIsWhole(free[1..], request - Min(request, free[0]));
    }
  }

  lemma {:induction false} TakeNothing(free: seq<int>)
    requires NonNegative(free)
    ensures CountPositive(Take(free, 0)) == 0
    ensures forall i :: 0 <= i < |free| ==> Take(free, 0)[i] == 0
  {
    if free != [] {
      TakeNothing(free[1..]);
    }
  }

  lemma {:induction false} NothingFree(free: seq<int>, request: int)
    requires 0 <= request && forall i :: 0 <= i < |free| ==> free[i] == 0
    ensures CountPositive(Take(free, request)) == 0
  {
    if free != [] {
      NothingFree(free[1..], request);
    }
  }

  /** All but the last position the split uses are not enough for what it hands out. */
  lemma {:induction false} TakeNeedsItsLast(free: seq<int>, request: int)
    requires NonNegative(free) && NonIncreasing(free) && 0 <= request
    ensures var k := CountPositive(Take(free, request));
      k <= |free| && (k > 0 ==> Total(Take(free, request)) > Total(free[..k - 1]))
  {
    if free != [] {
      var amount := Min(request, free[0]);
      TailSorted(free);
      if amount == 0 {
        if request == 0 { TakeNothing(free); } else { NothingFree(free, request); }
      } else {
        TakeNeedsItsLast(free[1..], request - amount);
        var k := CountPositive(Take(free[1..], request - amount));
        TakeIsExact(free[1..], request - amount);
        TotalNonNegative(Take(free[1..], request - amount));
        if k > 0 {
          if request == amount { TakeNothing(free[1..]); }
          assert free[..k][1..] == free[1..][..k - 1];
        }
      }
    }
  }

  lemma {:induction false} CountAtMostLength(s: seq<int>)
    ensures CountPositive(s) <= |s|
  {
    if s != [] { CountAtMostLength(s[1..]); }
  }

  lemma {:induction false} PrefixTotalGrows(free: seq<int>, m: nat, n: nat)
    requires NonNegative(free) && m <= n <= |free|
    ensures Total(free[..m]) <= Total(free[..n])
  {
    if m == 0 {
      TotalNonNegative(free[..n]);
    } else {
      assert free[..m][1..] == free[1..][..m - 1];
      assert free[..n][1..] == free[1..][..n - 1];
      PrefixTotalGrows(free[1..], m - 1, n - 1);
    }
  }

  lemma {:induction false} ShiftedPrefixIsSmaller(free: seq<int>, m: nat)
    requires NonIncreasing(free) && m < |free|
    ensures Total(free[1..][..m]) <= Total(free[..m])
  {
    if m > 0 {
      TailSorted(free);
      ShiftedPrefixIsSmaller(free[1..], m - 1);
      assert free[1..][..m][1..] == free[1..][1..][..m - 1];
      assert free[..m][1..] == free[1..][..m - 1];
    }
  }

  /** The exchange argument: m positions never hold more than the first m. */
  lemma {:induction false} LargestFirst(free: seq<int>, plan: seq<int>, m: nat)
    requires NonNegative(free) && NonIncreasing(free) && Within(plan, free)
    requires CountPositive(plan) <= m <= |free|
    ensures Total(plan) <= Total(free[..m])
  {
    if free == [] {
    } else {
      TailSorted(free);
      CountAtMostLength(plan[1..]);
      if plan[0] > 0 {
        LargestFirst(free[1..], plan[1..], m - 1);
        assert free[..m][1..] == free[1..][..m - 1];
      } else if m < |free| {
        LargestFirst(free[1..], plan[1..], m);
        ShiftedPrefixIsSmaller(free, m);
      } else {
        LargestFirst(free[1..], plan[1..], m - 1);
        assert free[..m][1..] == free[1..][..m - 1];
      }
    }
  }

  /** Any plan that hands out as much uses at least as many positions. */
  lemma GreedyUsesFewest(free: seq<int>, request: int, plan: seq<int>)
    requires NonNegative(free) && NonIncreasing(free) && 0 <= request
    requires Within(plan, free) && Total(plan) >= Total(Take(free, request))
    ensures CountPositive(Take(free, request)) <= CountPositive(plan)
  {
    var k := CountPositive(Take(free, request));
    TakeNeedsItsLast(free, request);
    CountAtMostLength(plan);
    if CountPositive(plan) < k {
      LargestFirst(free, plan, CountPositive(plan));
      PrefixTotalGrows(free, CountPositive(plan), k - 1);
    }
  }
}
