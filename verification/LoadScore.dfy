/** The load score: a weighted mean of free usage, less the hot value of recent bindings. */
module LoadScore {
  import opened Options
  import opened Framework
  import opened Sums
  import opened Decimals
  import opened DecimalMeaning
  import opened Annotations
  import opened Bindings
  import opened BindingRuns
  import opened BindingRecordKeeping

  datatype PriorityPolicy = PriorityPolicy(name: string, weight: real)
  datatype HotValuePolicy = HotValuePolicy(timeRange: int, count: int)

  /** What a score is computed from: the node's annotations, the sync policies and the time. */
  datatype Reading = Reading(anno: map<string, string>, syncPeriod: seq<SyncPolicy>, clock: Clock, now: int)

  /** Conversion of a number to an integer, toward zero. */
  function Trunc(x: real): int {
    if x >= 0.0 then x.Floor else -((-x).Floor)
  }

  /** Integer division, toward zero. */
  function Quotient(a: nat, b: int): int
    requires b != 0
  {
    if b > 0 then a / b else -(a / -b)
  }

  /** What a usage earns under a weight, out of weight times the highest score. */
  function Points(usage: real, weight: real): real {
    (1.0 - usage) * weight * MAX_NODE_SCORE as real
  }

  function GetScore(r: Reading, p: PriorityPolicy): Result<real> {
    var activeDuration := GetActiveDuration(r.syncPeriod, p.name);
    if activeDuration.Err? || activeDuration.value == 0 then Err
    else
      var usage := GetResourceUsage(r.anno, p.name, activeDuration.value, r.clock, r.now);
      if usage.Err? then Err
      else Ok(Points(Amount(usage.value), p.weight))
  }

  /** The usage a policy is scored by: the measured one, or 1 if there is none to be read. */
  function UsageOf(r: Reading, p: PriorityPolicy): real {
    var d := GetActiveDuration(r.syncPeriod, p.name);
    if d.Err? || d.value == 0 then 1.0
    else
      var usage := GetResourceUsage(r.anno, p.name, d.value, r.clock, r.now);
      if usage.Err? then 1.0 else Amount(usage.value)
  }

  /** The usage is 1 where nothing can be read, and otherwise the number that the annotation's text denotes. */
  lemma UsageIsTheDecimal(r: Reading, p: PriorityPolicy, text: string, stamp: string, x: real)
    requires p.name in r.anno && Split(r.anno[p.name], ',') == [text, stamp] && Denotes(text, x) && x >= 0.0
    ensures UsageOf(r, p)
      == var d := GetActiveDuration(r.syncPeriod, p.name);
         if d.Err? || d.value == 0 || !InActivePeriod(stamp, d.value, r.clock, r.now) then 1.0 else x
  {
    WhenDenotes(text, x);
  }

  function Usages(r: Reading, ps: seq<PriorityPolicy>): (us: seq<real>)
    ensures |us| == |ps| && forall i :: 0 <= i < |ps| ==> us[i] >= 0.0
  {
    seq(|ps|, i requires 0 <= i < |ps| => UsageOf(r, ps[i]))
  }

  function TotalWeight(ps: seq<PriorityPolicy>): real {
    if ps == [] then 0.0 else TotalWeight(ps[..|ps| - 1]) + ps[|ps| - 1].weight
  }

  function Share(weight: real, usage: real): real { weight * (1.0 - usage) }

  /** The weighted sum of what is free. */
  function Free(ps: seq<PriorityPolicy>, us: seq<real>): real
    requires |us| == |ps|
  {
    if ps == [] then 0.0
    else Free(ps[..|ps| - 1], us[..|ps| - 1]) + Share(ps[|ps| - 1].weight, us[|ps| - 1])
  }

  /**
   * The score of a row of usages; without policies every node scores 0. With weights that cancel out the
   * mean is not finite, and notFinite is what the platform converts it to.
   */
  function Mean(ps: seq<PriorityPolicy>, us: seq<real>, notFinite: int): int
    requires |us| == |ps|
  {
    if ps == [] then 0
    else if TotalWeight(ps) == 0.0 then notFinite
    else Trunc(100.0 * Free(ps, us) / TotalWeight(ps))
  }

  function NodeScore(r: Reading, ps: seq<PriorityPolicy>, notFinite: int): int {
    Mean(ps, Usages(r, ps), notFinite)
  }

  lemma PointsAreShare(usage: real, weight: real)
    ensures Points(usage, weight) == 100.0 * Share(weight, usage)
  {
    assert (1.0 - usage) * weight == weight * (1.0 - usage);
  }

  /** A policy that cannot be scored adds nothing, which is what a usage of 1 adds. */
  lemma ScoreOfOne(r: Reading, p: PriorityPolicy)
    ensures (if GetScore(r, p).Ok? then GetScore(r, p).value else 0.0) == 100.0 * Share(p.weight, UsageOf(r, p))
  {
    PointsAreShare(UsageOf(r, p), p.weight);
  }

  lemma FreeNext(ps: seq<PriorityPolicy>, us: seq<real>, i: nat)
    requires |us| == |ps| && i < |ps|
    ensures TotalWeight(ps[..i + 1]) == TotalWeight(ps[..i]) + ps[i].weight
    ensures Free(ps[..i + 1], us[..i + 1]) == Free(ps[..i], us[..i]) + Share(ps[i].weight, us[i])
  {
    assert ps[..i + 1][..i] == ps[..i] && us[..i + 1][..i] == us[..i];
  }

  /** The loop over the policies. */
  method SumScores(r: Reading, priority: seq<PriorityPolicy>) returns (score: real, weight: real)
    ensures weight == TotalWeight(priority) && score == 100.0 * Free(priority, Usages(r, priority))
  {
    ghost var us := Usages(r, priority);
    score, weight := 0.0, 0.0;
    for i := 0 to |priority|
      invariant weight == TotalWeight(priority[..i])
      invariant score == 100.0 * Free(priority[..i], us[..i])
    {
      var priorityScore := GetScore(r, priority[i]);
      ScoreOfOne(r, priority[i]);
      FreeNext(priority, us, i);
      weight := weight + priority[i].weight;
      score := score + if priorityScore.Ok? then priorityScore.value else 0.0;
    }
    assert priority[..|priority|] == priority && us[..|priority|] == us;
  }

  predicate Positive(ps: seq<PriorityPolicy>) {
    forall i :: 0 <= i < |ps| ==> ps[i].weight > 0.0
  }

  function Weights(ps: seq<PriorityPolicy>): seq<real> {
    seq(|ps|, i requires 0 <= i < |ps| => ps[i].weight)
  }

  /** What is free of each usage. */
  function FreeUsages(r: Reading, ps: seq<PriorityPolicy>): (frees: seq<real>)
    ensures |frees| == |ps| && forall i :: 0 <= i < |ps| ==> frees[i] == 1.0 - UsageOf(r, ps[i])
  {
    seq(|ps|, i requires 0 <= i < |ps| => 1.0 - UsageOf(r, ps[i]))
  }

  /** The sum of xs weighted by ws. */
  function WeightedSum(ws: seq<real>, xs: seq<real>): real
    requires |ws| == |xs|
  {
    if ws == [] then 0.0 else ws[0] * xs[0] + WeightedSum(ws[1..], xs[1..])
  }

  lemma {:induction false} WeightedLast(ws: seq<real>, xs: seq<real>, n: nat)
    requires |ws| == |xs| == n + 1
    ensures WeightedSum(ws, xs) == WeightedSum(ws[..n], xs[..n]) + ws[n] * xs[n]
  {
    if n == 0 {
      assert WeightedSum(ws[1..], xs[1..]) == 0.0;
    } else {
      WeightedLast(ws[1..], xs[1..], n - 1);
      assert ws[1..][..n - 1] == ws[..n][1..] && xs[1..][..n - 1] == xs[..n][1..];
    }
  }

  /** score is 100 times the mean of xs weighted by ws, truncated toward zero. */
  predicate IsWeightedMean(score: int, ws: seq<real>, xs: seq<real>)
    requires |ws| == |xs|
  {
    RealSum(ws) > 0.0 && IsTruncatedQuotient(score, 100.0 * WeightedSum(ws, xs), RealSum(ws))
  }

  /** q is x / w truncated toward zero. */
  predicate IsTruncatedQuotient(q: int, x: real, w: real)
    requires w > 0.0
  {
    if x >= 0.0 then q as real <= x / w < (q + 1) as real
    else (q - 1) as real < x / w <= q as real
  }

  lemma {:induction false} WeightIsSum(ps: seq<PriorityPolicy>)
    ensures TotalWeight(ps) == RealSum(Weights(ps))
  {
    if ps != [] {
      var n := |ps| - 1;
      WeightIsSum(ps[..n]);
      RealSumLast(Weights(ps));
      assert Weights(ps)[..n] == Weights(ps[..n]);
    }
  }

  lemma FreeLast(ps: seq<PriorityPolicy>, us: seq<real>, n: nat)
    requires |ps| == |us| == n + 1
    ensures Free(ps, us) == Free(ps[..n], us[..n]) + ps[n].weight * (1.0 - us[n])
  {
  }

  lemma SameProduct(a: real, b: real, c: real, d: real)
    requires a == c && b == d
    ensures a * b == c * d
  {
  }

  lemma {:induction false} FreeIsWeighted(ps: seq<PriorityPolicy>, us: seq<real>, ws: seq<real>, xs: seq<real>)
    requires |ps| == |us| == |ws| == |xs|
    requires forall i :: 0 <= i < |ps| ==> ws[i] == ps[i].weight && xs[i] == 1.0 - us[i]
    ensures Free(ps, us) == WeightedSum(ws, xs)
  {
    if ps != [] {
      var n := |ps| - 1;
      FreeIsWeighted(ps[..n], us[..n], ws[..n], xs[..n]);
      FreeLast(ps, us, n);
      WeightedLast(ws, xs, n);
      SameProduct(ps[n].weight, 1.0 - us[n], ws[n], xs[n]);
    }
  }

  lemma QuotientSign(x: real, w: real)
    requires w > 0.0
    ensures x >= 0.0 <==> x / w >= 0.0
  {
  }

  lemma TruncIsQuotient(x: real, w: real)
    requires w > 0.0
    ensures IsTruncatedQuotient(Trunc(x / w), x, w)
  {
    QuotientSign(x, w);
  }

  /** Every policy enters the score by its weight. */
  lemma NodeScoreIsWeightedMean(r: Reading, ps: seq<PriorityPolicy>, notFinite: int)
    requires ps != [] && Positive(ps)
    ensures IsWeightedMean(NodeScore(r, ps, notFinite), Weights(ps), FreeUsages(r, ps))
  {
    WeightIsSum(ps);
    FreeIsWeighted(ps, Usages(r, ps), Weights(ps), FreeUsages(r, ps));
    WeightIsPositive(ps);
    TruncIsQuotient(100.0 * Free(ps, Usages(r, ps)), TotalWeight(ps));
  }

  method GetNodeScore(r: Reading, priority: seq<PriorityPolicy>, notFinite: int) returns (result: int)
    ensures result == NodeScore(r, priority, notFinite)
    ensures priority != [] && Positive(priority) ==> IsWeightedMean(result, Weights(priority), FreeUsages(r, priority))
  {
    if |priority| == 0 {
      return 0;
    }
    var score, weight := SumScores(r, priority);
    if Positive(priority) {
      NodeScoreIsWeightedMean(r, priority, notFinite);
    }
    return if weight == 0.0 then notFinite else Trunc(score / weight);
  }

  function NormalizeScore(value: int, max: int, min: int): (r: int)
    requires min <= max
    ensures min <= r <= max && (min <= value <= max ==> r == value)
    ensures (value < min ==> r == min) && (value > max ==> r == max)
  {
    var raised := if value < min then min else value;
    if raised > max then max else raised
  }

  // ---------- the mean ----------

  lemma {:induction false} WeightIsPositive(ps: seq<PriorityPolicy>)
    requires Positive(ps)
    ensures TotalWeight(ps) >= 0.0 && (ps != [] ==> TotalWeight(ps) > 0.0)
  {
    if ps != [] {
      WeightIsPositive(ps[..|ps| - 1]);
    }
  }

  lemma Times(w: real, a: real, b: real)
    requires w >= 0.0 && a <= b
    ensures w * a <= w * b
  {
    assert w * (b - a) >= 0.0;
  }

  lemma TruncIsMonotone(x: real, y: real)
    requires x <= y
    ensures Trunc(x) <= Trunc(y)
  {
  }

  lemma {:induction false} LessUsageIsMoreFree(ps: seq<PriorityPolicy>, us: seq<real>, us': seq<real>)
    requires Positive(ps) && |us| == |us'| == |ps| && forall i :: 0 <= i < |ps| ==> us'[i] <= us[i]
    ensures Free(ps, us) <= Free(ps, us')
  {
    if ps != [] {
      var n := |ps| - 1;
      LessUsageIsMoreFree(ps[..n], us[..n], us'[..n]);
      Times(ps[n].weight, 1.0 - us[n], 1.0 - us'[n]);
    }
  }

  lemma Divide(a: real, b: real, w: real)
    requires w > 0.0 && a <= b
    ensures a / w <= b / w
  {
    Times(1.0 / w, a, b);
  }

  lemma LessUsageIsBetterMean(ps: seq<PriorityPolicy>, us: seq<real>, us': seq<real>, notFinite: int)
    requires ps != [] && Positive(ps)
    requires |us| == |us'| == |ps| && forall i :: 0 <= i < |ps| ==> us'[i] <= us[i]
    ensures Mean(ps, us, notFinite) <= Mean(ps, us', notFinite)
  {
    WeightIsPositive(ps);
    LessUsageIsMoreFree(ps, us, us');
    Divide(100.0 * Free(ps, us), 100.0 * Free(ps, us'), TotalWeight(ps));
    TruncIsMonotone(100.0 * Free(ps, us) / TotalWeight(ps), 100.0 * Free(ps, us') / TotalWeight(ps));
  }

  /**
   * Lower usages never lower the score, and an unreadable usage counts as 1: two readings that agree on
   * the usages so understood score the same.
   */
  lemma ScoreFollowsUsage(r: Reading, r': Reading, ps: seq<PriorityPolicy>, notFinite: int)
    requires ps != [] && Positive(ps) && forall p :: p in ps ==> UsageOf(r', p) <= UsageOf(r, p)
    ensures NodeScore(r, ps, notFinite) <= NodeScore(r', ps, notFinite)
    ensures (forall p :: p in ps ==> UsageOf(r', p) == UsageOf(r, p)) ==>
      NodeScore(r, ps, notFinite) == NodeScore(r', ps, notFinite)
  {
    LessUsageIsBetterMean(ps, Usages(r, ps), Usages(r', ps), notFinite);
    if forall p :: p in ps ==> UsageOf(r', p) == UsageOf(r, p) {
      assert Usages(r, ps) == Usages(r', ps);
    }
  }

  lemma Spread(t: real, w: real, x: real)
    ensures (t + w) * x == t * x + w * x
  {
  }

  /** The same usage everywhere frees the same part of every weight. */
  lemma {:induction false} EvenUsage(ps: seq<PriorityPolicy>, us: seq<real>, u: real)
    requires |us| == |ps| && forall i :: 0 <= i < |us| ==> us[i] == u
    ensures Free(ps, us) == TotalWeight(ps) * (1.0 - u)
  {
    if ps != [] {
      var n := |ps| - 1;
      EvenUsage(ps[..n], us[..n], u);
      Spread(TotalWeight(ps[..n]), ps[n].weight, 1.0 - u);
    }
  }

  lemma FreeIsBetween(ps: seq<PriorityPolicy>, us: seq<real>, lo: real, hi: real)
    requires Positive(ps) && |us| == |ps| && forall i :: 0 <= i < |ps| ==> lo <= us[i] <= hi
    ensures TotalWeight(ps) * (1.0 - hi) <= Free(ps, us) <= TotalWeight(ps) * (1.0 - lo)
  {
    var low, high := seq(|ps|, i => lo), seq(|ps|, i => hi);
    LessUsageIsMoreFree(ps, high, us);
    LessUsageIsMoreFree(ps, us, low);
    EvenUsage(ps, high, hi);
    EvenUsage(ps, low, lo);
  }

  lemma Cancel(a: real, w: real)
    requires w > 0.0
    ensures 100.0 * (w * a) / w == 100.0 * a
  {
    assert 100.0 * (w * a) == (100.0 * a) * w;
  }

  lemma BoundsOfQuotient(x: real, w: real, a: real, b: real)
    requires w > 0.0 && w * a <= x <= w * b
    ensures 100.0 * a <= 100.0 * x / w <= 100.0 * b
  {
    Divide(100.0 * (w * a), 100.0 * x, w);
    Divide(100.0 * x, 100.0 * (w * b), w);
    Cancel(a, w);
    Cancel(b, w);
  }

  lemma MeanIsBetween(ps: seq<PriorityPolicy>, us: seq<real>, lo: real, hi: real, notFinite: int)
    requires ps != [] && Positive(ps) && |us| == |ps| && forall i :: 0 <= i < |ps| ==> lo <= us[i] <= hi
    ensures Trunc(100.0 * (1.0 - hi)) <= Mean(ps, us, notFinite) <= Trunc(100.0 * (1.0 - lo))
  {
    WeightIsPositive(ps);
    FreeIsBetween(ps, us, lo, hi);
    var low, mean, high := 100.0 * (1.0 - hi), 100.0 * Free(ps, us) / TotalWeight(ps), 100.0 * (1.0 - lo);
    BoundsOfQuotient(Free(ps, us), TotalWeight(ps), 1.0 - hi, 1.0 - lo);
    TruncIsMonotone(low, mean);
    TruncIsMonotone(mean, high);
  }

  /** The score is a mean: it lies between what the highest and the lowest usage alone would score. */
  lemma ScoreIsMean(r: Reading, ps: seq<PriorityPolicy>, lo: real, hi: real, notFinite: int)
    requires ps != [] && Positive(ps) && forall p :: p in ps ==> lo <= UsageOf(r, p) <= hi
    ensures Trunc(100.0 * (1.0 - hi)) <= NodeScore(r, ps, notFinite) <= Trunc(100.0 * (1.0 - lo))
  {
    MeanIsBetween(ps, Usages(r, ps), lo, hi, notFinite);
  }

  /** No node scores more than 100, and one whose usages are at most 1 not less than 0. */
  lemma ScoreIsBounded(r: Reading, ps: seq<PriorityPolicy>, notFinite: int)
    requires ps != [] && Positive(ps)
    ensures NodeScore(r, ps, notFinite) <= 100
    ensures (forall p :: p in ps ==> UsageOf(r, p) <= 1.0) ==> NodeScore(r, ps, notFinite) >= 0
  {
    var hi := Highest(Usages(r, ps));
    forall p | p in ps ensures 0.0 <= UsageOf(r, p) <= hi {
      var i :| 0 <= i < |ps| && ps[i] == p;
      assert UsageOf(r, p) == Usages(r, ps)[i];
    }
    ScoreIsMean(r, ps, 0.0, hi, notFinite);
    if forall p :: p in ps ==> UsageOf(r, p) <= 1.0 {
      ScoreIsMean(r, ps, 0.0, 1.0, notFinite);
    }
  }

  lemma {:induction false} Highest(us: seq<real>) returns (hi: real)
    ensures forall i :: 0 <= i < |us| ==> us[i] <= hi
  {
    if us == [] {
      hi := 0.0;
    } else {
      var rest := Highest(us[1..]);
      hi := if us[0] > rest then us[0] else rest;
      forall i | 0 <= i < |us| ensures us[i] <= hi {
        if i > 0 { assert us[i] == us[1..][i - 1]; }
      }
    }
  }

  // ---------- the policies in the mean ----------

  lemma {:induction false} WeightedIsRealSum(ws: seq<real>, xs: seq<real>, zs: seq<real>)
    requires |ws| == |xs| == |zs| && forall i :: 0 <= i < |zs| ==> zs[i] == ws[i] * xs[i]
    ensures WeightedSum(ws, xs) == RealSum(zs)
  {
    if ws != [] {
      WeightedIsRealSum(ws[1..], xs[1..], zs[1..]);
    }
  }

  /** Permuted policies weigh the same in both sums of the mean. */
  lemma SumsIgnoreOrder<T>(ps: seq<T>, shuffled: seq<T>, weight: T -> real, free: T -> real)
    requires multiset(ps) == multiset(shuffled)
    ensures RealSum(MapSeq(ps, weight)) == RealSum(MapSeq(shuffled, weight))
    ensures WeightedSum(MapSeq(ps, weight), MapSeq(ps, free))
      == WeightedSum(MapSeq(shuffled, weight), MapSeq(shuffled, free))
  {
    var part := (p: T) => weight(p) * free(p);
    WeightedIsRealSum(MapSeq(ps, weight), MapSeq(ps, free), MapSeq(ps, part));
    WeightedIsRealSum(MapSeq(shuffled, weight), MapSeq(shuffled, free), MapSeq(shuffled, part));
    MapPermutation(ps, shuffled, weight);
    MapPermutation(ps, shuffled, part);
    RealSumPermutation(MapSeq(ps, weight), MapSeq(shuffled, weight));
    RealSumPermutation(MapSeq(ps, part), MapSeq(shuffled, part));
  }

  lemma RowsAreMapped(r: Reading, ps: seq<PriorityPolicy>)
    ensures Weights(ps) == MapSeq(ps, (p: PriorityPolicy) => p.weight)
    ensures FreeUsages(r, ps) == MapSeq(ps, (p: PriorityPolicy) => 1.0 - UsageOf(r, p))
  {
  }

  lemma SameMean(a: int, b: int, ws: seq<real>, xs: seq<real>, ws': seq<real>, xs': seq<real>)
    requires |ws| == |xs| && |ws'| == |xs'| && IsWeightedMean(a, ws, xs) && IsWeightedMean(b, ws', xs')
    requires RealSum(ws) == RealSum(ws') && WeightedSum(ws, xs) == WeightedSum(ws', xs')
    ensures a == b
  {
  }

  /** The order of the policies does not matter. */
  lemma ScoreIgnoresOrder(r: Reading, ps: seq<PriorityPolicy>, shuffled: seq<PriorityPolicy>, notFinite: int)
    requires ps != [] && shuffled != [] && Positive(ps) && Positive(shuffled) && multiset(ps) == multiset(shuffled)
    ensures NodeScore(r, ps, notFinite) == NodeScore(r, shuffled, notFinite)
  {
    RowsAreMapped(r, ps);
    RowsAreMapped(r, shuffled);
    SumsIgnoreOrder(ps, shuffled, (p: PriorityPolicy) => p.weight, (p: PriorityPolicy) => 1.0 - UsageOf(r, p));
    NodeScoreIsWeightedMean(r, ps, notFinite);
    NodeScoreIsWeightedMean(r, shuffled, notFinite);
    SameMean(NodeScore(r, ps, notFinite), NodeScore(r, shuffled, notFinite),
             Weights(ps), FreeUsages(r, ps), Weights(shuffled), FreeUsages(r, shuffled));
  }

  lemma WeightedOfTwo(a: real, b: real, x: real, y: real)
    ensures WeightedSum([a, b], [x, y]) == a * x + b * y && RealSum([a, b]) == a + b
  {
    assert [a, b][1..] == [b] && [x, y][1..] == [y];
    assert [b][1..] == [] && [y][1..] == [];
    assert WeightedSum([b], [y]) == b * y && RealSum([b]) == b;
  }

  /** The weighted mean of two, written out. */
  lemma MeanOfTwo(score: int, a: real, b: real, x: real, y: real)
    requires IsWeightedMean(score, [a, b], [x, y])
    ensures a + b > 0.0 && IsTruncatedQuotient(score, 100.0 * (a * x + b * y), a + b)
  {
    WeightedOfTwo(a, b, x, y);
  }

  lemma RowsOfTwo(r: Reading, p: PriorityPolicy, q: PriorityPolicy)
    ensures Weights([p, q]) == [p.weight, q.weight]
    ensures FreeUsages(r, [p, q]) == [1.0 - UsageOf(r, p), 1.0 - UsageOf(r, q)]
  {
  }

  /** Two policies of any weights: the score is what the two free usages average to under them. */
  lemma TwoPolicies(r: Reading, p: PriorityPolicy, q: PriorityPolicy, x: real, y: real, notFinite: int)
    requires p.weight > 0.0 && q.weight > 0.0 && x == 1.0 - UsageOf(r, p) && y == 1.0 - UsageOf(r, q)
    ensures IsWeightedMean(NodeScore(r, [p, q], notFinite), [p.weight, q.weight], [x, y])
  {
    RowsOfTwo(r, p, q);
    NodeScoreIsWeightedMean(r, [p, q], notFinite);
  }

  // ---------- the hot value ----------

  /** How hot a node is: its recent bindings in every window, in units of that window's count. */
  ghost function HotValue(h: multiset<Binding>, node: string, hvs: seq<HotValuePolicy>, now: int): int
    requires forall i :: 0 <= i < |hvs| ==> hvs[i].count != 0
  {
    if hvs == [] then 0
    else
      var last := hvs[|hvs| - 1];
      HotValue(h, node, hvs[..|hvs| - 1], now) + Quotient(Count(h, node, Line(now, last.timeRange)), last.count)
  }

  method NodeHotValue(records: BindingRecords, node: string, hvs: seq<HotValuePolicy>, now: int)
    returns (hotValue: int)
    requires records.Valid() && forall i :: 0 <= i < |hvs| ==> hvs[i].count != 0
    ensures hotValue == HotValue(multiset(records.bindings.items), node, hvs, now)
  {
    hotValue := 0;
    for i := 0 to |hvs|
      invariant hotValue == HotValue(multiset(records.bindings.items), node, hvs[..i], now)
    {
      assert hvs[..i + 1][..i] == hvs[..i];
      var cnt := records.GetLastNodeBindingCount(node, hvs[i].timeRange, now);
      hotValue := hotValue + Quotient(cnt, hvs[i].count);
    }
    assert hvs[..|hvs|] == hvs;
  }

  /** The final score: ten points less for every unit of heat, kept within the bounds. */
  ghost function FinalScore(r: Reading, ps: seq<PriorityPolicy>, notFinite: int, hot: int): int {
    NormalizeScore(NodeScore(r, ps, notFinite) - hot * 10, MAX_NODE_SCORE, MIN_NODE_SCORE)
  }

  method Score(records: BindingRecords, node: string, r: Reading, ps: seq<PriorityPolicy>, notFinite: int,
               hvs: seq<HotValuePolicy>, now: int) returns (final: int)
    requires records.Valid() && forall i :: 0 <= i < |hvs| ==> hvs[i].count != 0
    ensures final == FinalScore(r, ps, notFinite, HotValue(multiset(records.bindings.items), node, hvs, now))
    ensures var value := NodeScore(r, ps, notFinite) - 10 * HotValue(multiset(records.bindings.items), node, hvs, now);
      final == if value < 0 then 0 else if value > 100 then 100 else value
  {
    var hotValue := NodeHotValue(records, node, hvs, now);
    var score := GetNodeScore(r, ps, notFinite);
    final := NormalizeScore(score - hotValue * 10, MAX_NODE_SCORE, MIN_NODE_SCORE);
  }

  lemma QuotientIs(n: nat, c: int, q: int)
    requires c > 0 && c * q <= n < c * q + c
    ensures n / c == q
  {
    QuotientBounds(n, c);
    if n / c < q {
      Gap(c, q, n / c);
    } else if n / c > q {
      Gap(c, n / c, q);
    }
  }

  lemma HotValueNext(h: multiset<Binding>, node: string, hvs: seq<HotValuePolicy>, last: HotValuePolicy, now: int)
    requires last.count != 0 && forall i :: 0 <= i < |hvs| ==> hvs[i].count != 0
    ensures HotValue(h, node, hvs + [last], now)
      == HotValue(h, node, hvs, now) + Quotient(Count(h, node, Line(now, last.timeRange)), last.count)
  {
    assert (hvs + [last])[..|hvs|] == hvs;
  }

  /** A window counts the node's bindings since its start, in whole multiples of its count. */
  lemma HotValueOfOne(h: multiset<Binding>, node: string, hv: HotValuePolicy, now: int, line: int, q: int)
    requires hv.count > 0 && WholeSecondsBack(line, now, hv.timeRange)
    requires hv.count * q <= Count(h, node, line) < hv.count * q + hv.count
    ensures HotValue(h, node, [hv], now) == q
  {
    WhenLineIsBack(now, hv.timeRange);
    QuotientIs(Count(h, node, line), hv.count, q);
    HotValueNext(h, node, [], hv, now);
    assert [] + [hv] == [hv];
  }

  lemma HotValueStep(h: multiset<Binding>, node: string, hvs: seq<HotValuePolicy>, n: nat, now: int)
    requires |hvs| == n + 1 && forall i :: 0 <= i < |hvs| ==> hvs[i].count != 0
    ensures HotValue(h, node, hvs, now) == HotValue(h, node, hvs[..n], now) + HotValue(h, node, [hvs[n]], now)
  {
    HotValueNext(h, node, hvs[..n], hvs[n], now);
    HotValueNext(h, node, [], hvs[n], now);
    assert hvs == hvs[..n] + [hvs[n]] && [] + [hvs[n]] == [hvs[n]];
  }

  lemma SumStep<T>(s: seq<T>, n: nat, f: T -> int)
    requires |s| == n + 1
    ensures SumOf(s, f) == SumOf(s[..n], f) + f(s[n])
  {
    SumAppend(s[..n], [s[n]], f);
    SumOne(s[n], f);
    assert s == s[..n] + [s[n]];
  }

  /** The windows add up. */
  lemma {:induction false} HotValueIsSum(h: multiset<Binding>, node: string, hvs: seq<HotValuePolicy>, now: int,
                                        heat: HotValuePolicy -> int)
    requires forall i :: 0 <= i < |hvs| ==> hvs[i].count != 0 && heat(hvs[i]) == HotValue(h, node, [hvs[i]], now)
    ensures HotValue(h, node, hvs, now) == SumOf(hvs, heat)
  {
    if hvs != [] {
      var n := |hvs| - 1;
      HotValueIsSum(h, node, hvs[..n], now, heat);
      HotValueStep(h, node, hvs, n, now);
      SumStep(hvs, n, heat);
    }
  }

  ghost predicate Counting(hvs: seq<HotValuePolicy>) {
    forall i :: 0 <= i < |hvs| ==> hvs[i].count > 0
  }

  lemma Gap(c: int, x: int, y: int)
    requires c > 0 && x > y
    ensures c * x >= c * y + c
  {
    assert c * (x - y - 1) >= 0;
  }

  lemma QuotientBounds(a: nat, c: int)
    requires c > 0
    ensures var q := a / c; q >= 0 && c * q <= a < c * q + c
  {
  }

  lemma QuotientIsMonotone(a: nat, b: nat, c: int)
    requires a <= b && c > 0
    ensures 0 <= Quotient(a, c) <= Quotient(b, c)
  {
    var x, y := a / c, b / c;
    QuotientBounds(a, c);
    QuotientBounds(b, c);
    if x > y {
      Gap(c, x, y);
    }
  }

  lemma {:induction false} MoreBindingsAreHotter(h: multiset<Binding>, h': multiset<Binding>, node: string,
                                                hvs: seq<HotValuePolicy>, now: int)
    requires h <= h' && Counting(hvs)
    ensures 0 <= HotValue(h, node, hvs, now) <= HotValue(h', node, hvs, now)
  {
    if hvs != [] {
      var last := hvs[|hvs| - 1];
      var line := Line(now, last.timeRange);
      MoreBindingsAreHotter(h, h', node, hvs[..|hvs| - 1], now);
      SubsetSize(OnNode(Newer(h, line), node), OnNode(Newer(h', line), node));
      QuotientIsMonotone(Count(h, node, line), Count(h', node, line), last.count);
    }
  }

  /** A node with more recent bindings, or with higher usages, never gets the better final score. */
  lemma BusierNodesScoreLess(r: Reading, r': Reading, ps: seq<PriorityPolicy>, notFinite: int,
                             h: multiset<Binding>, h': multiset<Binding>, node: string,
                             hvs: seq<HotValuePolicy>, now: int)
    requires h <= h' && Counting(hvs)
    requires ps != [] && Positive(ps) && forall p :: p in ps ==> UsageOf(r, p) <= UsageOf(r', p)
    ensures FinalScore(r', ps, notFinite, HotValue(h', node, hvs, now))
      <= FinalScore(r, ps, notFinite, HotValue(h, node, hvs, now))
  {
    ScoreFollowsUsage(r', r, ps, notFinite);
    MoreBindingsAreHotter(h, h', node, hvs, now);
  }

  // ---------- collection and heat ----------

  /** max covers every window and is one of them, or zero. */
  ghost predicate LongestWindow(hvs: seq<HotValuePolicy>, max: int) {
    && (forall i :: 0 <= i < |hvs| ==> hvs[i].timeRange <= max)
    && max >= 0 && (max > 0 ==> exists i :: 0 <= i < |hvs| && hvs[i].timeRange == max)
  }

  method GetMaxHotValueTimeRange(hvs: seq<HotValuePolicy>) returns (max: int)
    ensures LongestWindow(hvs, max)
  {
    max := 0;
    for k := 0 to |hvs|
      invariant forall i :: 0 <= i < k ==> hvs[i].timeRange <= max
      invariant max >= 0 && (max > 0 ==> exists i :: 0 <= i < |hvs| && hvs[i].timeRange == max)
    {
      if max < hvs[k].timeRange {
        max := hvs[k].timeRange;
      }
    }
  }

  lemma CollectedCount(h: multiset<Binding>, node: string, gone: int, line: int)
    requires gone <= line
    ensures Count(Newer(h, gone), node, line) == Count(h, node, line)
  {
    NewerTwice(h, gone, line);
  }

  /** Once everything older than the longest window is collected, no hot value changes. */
  lemma {:induction false} CollectionKeepsHeat(h: multiset<Binding>, node: string, hvs: seq<HotValuePolicy>,
                                              gcRange: int, now: int)
    requires Counting(hvs) && forall i :: 0 <= i < |hvs| ==> hvs[i].timeRange <= gcRange
    ensures HotValue(Newer(h, Line(now, gcRange)), node, hvs, now) == HotValue(h, node, hvs, now)
  {
    if hvs != [] {
      var last := hvs[|hvs| - 1];
      CollectionKeepsHeat(h, node, hvs[..|hvs| - 1], gcRange, now);
      SecondsAreMonotone(last.timeRange, gcRange);
      CollectedCount(h, node, Line(now, gcRange), Line(now, last.timeRange));
    }
  }

  lemma {:induction false} SameCountsSameHeat(h1: multiset<Binding>, h2: multiset<Binding>, node: string,
                                             hvs: seq<HotValuePolicy>, now: int)
    requires Counting(hvs)
    requires forall i :: 0 <= i < |hvs| ==>
      Count(h1, node, Line(now, hvs[i].timeRange)) == Count(h2, node, Line(now, hvs[i].timeRange))
    ensures HotValue(h1, node, hvs, now) == HotValue(h2, node, hvs, now)
  {
    if hvs != [] {
      SameCountsSameHeat(h1, h2, node, hvs[..|hvs| - 1], now);
    }
  }

  /**
   * The controller collects by its longest window: over any run, a heap so collected and one that never
   * collects give every node the same hot value, when timestamps tell nodes apart.
   */
  lemma HeatIgnoresCollection(size: int, gcRange: int, ops: seq<Op>, h1: seq<multiset<Binding>>,
                              h2: seq<multiset<Binding>>, node: string, hvs: seq<HotValuePolicy>, now: int)
    requires size != 0 && IsRun(size, gcRange, ops, h1) && IsRun(size, 0, ops, h2)
    requires Counting(hvs) && LongestWindow(hvs, gcRange) && StampTellsNode(History(ops))
    requires forall i :: 0 <= i < |ops| && ops[i].Collect? ==> ops[i].now <= now
    ensures HotValue(h1[|ops|], node, hvs, now) == HotValue(h2[|ops|], node, hvs, now)
  {
    forall i | 0 <= i < |hvs|
      ensures Count(h1[|ops|], node, Line(now, hvs[i].timeRange)) == Count(h2[|ops|], node, Line(now, hvs[i].timeRange))
    {
      CountsIgnoreCollection(size, gcRange, ops, h1, h2, node, now, hvs[i].timeRange);
    }
    SameCountsSameHeat(h1[|ops|], h2[|ops|], node, hvs, now);
  }

  /** Some window holds all but one of the bindings there is room for. */
  ghost predicate Saturated(h: multiset<Binding>, size: int, hvs: seq<HotValuePolicy>, now: int) {
    exists i :: 0 <= i < |hvs| && |Newer(h, Line(now, hvs[i].timeRange))| >= size - 1
  }

  lemma SaturatedGrows(h: multiset<Binding>, size: int, hvs: seq<HotValuePolicy>, now: int)
    requires hvs != []
    requires
      || Saturated(h, size, hvs[..|hvs| - 1], now)
      || |Newer(h, Line(now, hvs[|hvs| - 1].timeRange))| >= size - 1
    ensures Saturated(h, size, hvs, now)
  {
    if Saturated(h, size, hvs[..|hvs| - 1], now) {
      var i :| 0 <= i < |hvs| - 1 && |Newer(h, Line(now, hvs[..|hvs| - 1][i].timeRange))| >= size - 1;
      assert hvs[..|hvs| - 1][i] == hvs[i];
    }
  }

  /** Over any run the hot value is that of the full history, unless a window is saturated. */
  lemma {:induction false} HeatIsExactOrSaturated(size: int, gcRange: int, ops: seq<Op>, heaps: seq<multiset<Binding>>,
                                                 node: string, hvs: seq<HotValuePolicy>, now: int)
    requires IsRun(size, gcRange, ops, heaps) && Counting(hvs)
    requires forall i :: 0 <= i < |ops| && ops[i].Collect? ==> ops[i].now <= now
    requires gcRange == 0 || forall i :: 0 <= i < |hvs| ==> hvs[i].timeRange <= gcRange
    ensures HotValue(heaps[|ops|], node, hvs, now) == HotValue(History(ops), node, hvs, now)
      || Saturated(heaps[|ops|], size, hvs, now)
  {
    if hvs != [] {
      var n := |hvs| - 1;
      HeatIsExactOrSaturated(size, gcRange, ops, heaps, node, hvs[..n], now);
      CountIsExactOrSaturated(size, gcRange, ops, heaps, node, now, hvs[n].timeRange);
      var h := heaps[|ops|];
      if Saturated(h, size, hvs[..n], now) || |Newer(h, Line(now, hvs[n].timeRange))| >= size - 1 {
        SaturatedGrows(h, size, hvs, now);
      }
    }
  }

  /** No collection can change what the window counts. */
  ghost predicate Unobservable(size: int, gcRange: int, range: int, now: int) {
    forall h: multiset<Binding>, h': multiset<Binding>, node: string :: Step(size, gcRange, h, Collect(now), h') ==>
      Count(h', node, Line(now, range)) == Count(h, node, Line(now, range))
  }

  lemma CountOfOne(b: Binding, line: int)
    ensures Count(multiset{b}, b.node, line) == if b.timestamp > line then 1 else 0
  {
    var newer := Newer(multiset{b}, line);
    if b.timestamp > line {
      assert newer == multiset{b};
      assert OnNode(newer, b.node) == multiset{b};
    } else {
      assert newer == multiset{};
      assert OnNode(newer, b.node) == multiset{};
    }
  }

  lemma CollectionIsSeen(size: int, gcRange: int, range: int, now: int)
    requires gcRange != 0 && Seconds(range) > Seconds(gcRange)
    ensures !Unobservable(size, gcRange, range, now)
  {
    var gone, line := Line(now, gcRange), Line(now, range);
    var b := Binding("n", "", "", gone);
    CountOfOne(b, line);
    assert Newer(multiset{b}, gone) == multiset{};
    assert Newer(multiset{}, line) == multiset{};
    assert Step(size, gcRange, multiset{b}, Collect(now), multiset{});
    assert Count(multiset{}, b.node, line) == 0;
  }

  /** A collection is unobservable to a window exactly when there is none, or it keeps as many whole seconds. */
  lemma WhenCollectionIsUnobservable(size: int, gcRange: int, range: int, now: int)
    ensures Unobservable(size, gcRange, range, now) <==> gcRange == 0 || Seconds(range) <= Seconds(gcRange)
  {
    if gcRange == 0 || Seconds(range) <= Seconds(gcRange) {
      var line := Line(now, range);
      forall h: multiset<Binding>, h': multiset<Binding>, node: string | Step(size, gcRange, h, Collect(now), h')
        ensures Count(h', node, line) == Count(h, node, line)
      {
        if gcRange != 0 {
          CollectedCount(h, node, Line(now, gcRange), line);
        }
      }
    } else {
      CollectionIsSeen(size, gcRange, range, now);
    }
  }

  /** What the scheduler plugin's records are built with: their size, and a collection range of five minutes. */
  const PLUGIN_SIZE := 1024
  const PLUGIN_GC_RANGE := 300_000_000_000

  lemma FiveMinutes(range: int)
    ensures Seconds(range) <= Seconds(PLUGIN_GC_RANGE) <==> range < 301_000_000_000
  {
  }

  /** The plugin's fixed collection range is enough exactly for windows below 301 seconds, whatever the policy asks. */
  lemma PluginCollectionLosesLongWindows(range: int, now: int)
    ensures Unobservable(PLUGIN_SIZE, PLUGIN_GC_RANGE, range, now) <==> range < 301_000_000_000
  {
    WhenCollectionIsUnobservable(PLUGIN_SIZE, PLUGIN_GC_RANGE, range, now);
    FiveMinutes(range);
  }
}
