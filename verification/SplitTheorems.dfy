/** The multi-zone mode on CPU-only requests: exact, optimal and independent of ties. */
module SplitTheorems {
  import opened Sums
  import opened Greedy
  import opened Topology
  import opened Allocator
  import opened AllocatorTheorems

  /** The zones and the request of a node whose only aware resource is CPU. */
  ghost predicate Ready(zones: seq<ZoneView>, request: Resource) {
    AllSound(zones) && Roomy(zones) && Distinct(Names(zones)) && CpuOnly(request)
  }

  ghost function WholeCores(zones: seq<ZoneView>): int {
    SumOf(zones, (z: ZoneView) => Cores(z))
  }

  /** The amounts of a walk over sorted, zone by zone. */
  function Amounts(sorted: seq<ZoneView>, request: Resource): seq<int> {
    Take(CoresOf(sorted), request.milliCPU)
  }

  lemma {:induction false} TotalIsSum<T>(s: seq<T>, f: T -> int)
    ensures Total(MapSeq(s, f)) == SumOf(s, f)
  {
    if s != [] {
      assert MapSeq(s, f)[1..] == MapSeq(s[1..], f);
      TotalIsSum(s[1..], f);
    }
  }

  /** The order behind an accepted result, and the greedy amounts it was built from. */
  lemma OrderBehind(zones: seq<ZoneView>, request: Resource, result: seq<Zone>) returns (sorted: seq<ZoneView>)
    requires Ready(zones, request) && Accepts(zones, false, request, result)
    ensures SortOf(sorted, zones) && Ready(sorted, request) && SortedByName(result)
    ensures multiset(result) == multiset(Portions(sorted, Amounts(sorted, request)))
    ensures NonIncreasing(CoresOf(sorted)) && NonNegative(CoresOf(sorted)) && Whole(CoresOf(sorted))
  {
    sorted :| SortOf(sorted, zones) && OutcomeOf(sorted, false, request, result);
    SortKeepsSound(sorted, zones);
    SplitIsGreedy(sorted, request);
    CoresAreSorted(sorted);
  }

  /** How the entries of a result relate to the amounts of the walk. */
  lemma ResultIsPortions(sorted: seq<ZoneView>, request: Resource, result: seq<Zone>)
    requires Ready(sorted, request)
    requires multiset(result) == multiset(Portions(sorted, Amounts(sorted, request)))
    ensures NonNegative(Amounts(sorted, request))
    ensures |result| == CountPositive(Amounts(sorted, request))
    ensures TotalCpu(result) == Total(Amounts(sorted, request))
    ensures forall e :: e in result ==> exists i: nat :: PortionOf(e, sorted, Amounts(sorted, request), i)
    ensures Distinct(MapSeq(result, (z: Zone) => z.name))
  {
    var amounts := Amounts(sorted, request);
    var portions := Portions(sorted, amounts);
    NonNegativeCores(sorted);
    TakeIsExact(CoresOf(sorted), request.milliCPU);
    PortionsAreExact(sorted, amounts);
    PortionsAreNamed(sorted, amounts);
    SameLength(result, portions);
    SumPermutation(result, portions, (z: Zone) => ZoneCpu(z));
    MapPermutation(portions, result, (z: Zone) => z.name);
    DistinctPermutation(MapSeq(portions, (z: Zone) => z.name), MapSeq(result, (z: Zone) => z.name));
    forall e | e in result ensures e in portions { assert e in multiset(result); }
  }

  lemma WholeCoresOfSorted(sorted: seq<ZoneView>, zones: seq<ZoneView>)
    requires multiset(sorted) == multiset(zones)
    ensures Total(CoresOf(sorted)) == WholeCores(zones)
  {
    SumPermutation(sorted, zones, (z: ZoneView) => Cores(z));
    TotalIsSum(sorted, (z: ZoneView) => Cores(z));
  }

  /** An entry gives a positive whole number of cores that its zone has free. */
  ghost predicate GivesCores(e: Zone, zones: seq<ZoneView>) {
    exists z :: z in zones && e.name == z.name && 0 < ZoneCpu(e) <= Cores(z) && ZoneCpu(e) % 1000 == 0
  }

  /** The result hands out min(request, whole free cores), each zone named once, in name order. */
  lemma SplitIsExact(zones: seq<ZoneView>, request: Resource, result: seq<Zone>)
    requires Ready(zones, request) && Accepts(zones, false, request, result)
    ensures TotalCpu(result) == Min(request.milliCPU, WholeCores(zones))
    ensures forall e :: e in result ==> GivesCores(e, zones)
    ensures forall i, j :: 0 <= i < j < |result| ==>
      NameLeq(result[i].name, result[j].name) && result[i].name != result[j].name
  {
    var sorted := OrderBehind(zones, request, result);
    var amounts := Amounts(sorted, request);
    ResultIsPortions(sorted, request, result);
    TakeIsExact(CoresOf(sorted), request.milliCPU);
    TakeIsWhole(CoresOf(sorted), request.milliCPU);
    WholeCoresOfSorted(sorted, zones);
    SortKeeps(sorted, zones);
    forall e | e in result ensures GivesCores(e, zones) {
      var i: nat :| PortionOf(e, sorted, amounts, i);
      assert sorted[i] in zones && 0 < amounts[i] <= CoresOf(sorted)[i];
    }
    forall i, j | 0 <= i < j < |result| ensures result[i].name != result[j].name {
      var names := MapSeq(result, (z: Zone) => z.name);
      assert names[i] != names[j];
    }
  }

  lemma {:induction false} NoneFree(zones: seq<ZoneView>)
    requires AllSound(zones)
    ensures WholeCores(zones) == 0 <==> forall i :: 0 <= i < |zones| ==> Cores(zones[i]) == 0
    ensures WholeCores(zones) >= 0
  {
    TotalIsSum(zones, (z: ZoneView) => Cores(z));
    NonNegativeCores(zones);
    TotalNonNegative(CoresOf(zones));
    assert forall i :: 0 <= i < |zones| ==> CoresOf(zones)[i] == Cores(zones[i]);
  }

  lemma {:induction false} CountZero(s: seq<int>)
    requires NonNegative(s)
    ensures CountPositive(s) == 0 <==> Total(s) == 0
  {
    if s != [] {
      CountZero(s[1..]);
      TotalNonNegative(s[1..]);
    }
  }

  /** Filter accepts a node with no whole free core and records nothing there, and only then for a real request. */
  lemma EmptyExactlyWhenNoCoreIsFree(zones: seq<ZoneView>, request: Resource, result: seq<Zone>)
    requires Ready(zones, request) && request.milliCPU > 0 && Accepts(zones, false, request, result)
    ensures result == [] <==> forall i :: 0 <= i < |zones| ==> Cores(zones[i]) == 0
  {
    var sorted := OrderBehind(zones, request, result);
    ResultIsPortions(sorted, request, result);
    SplitIsExact(zones, request, result);
    CountZero(Amounts(sorted, request));
    NoneFree(zones);
  }

  /** A node with free CPU but no whole free core is still accepted, with nothing recorded to score or reserve. */
  lemma AcceptedWithNothing(request: Resource)
    requires CpuOnly(request)
    ensures var zones := [ZoneView("node1", Resource(900, 0, 0, map[]), ZERO)];
      Ready(zones, request) && Accepts(zones, false, request, [])
  {
    var z := ZoneView("node1", Resource(900, 0, 0, map[]), ZERO);
    CoresFollowFree(z);
    assert Ready([z], request);
    SplitIsGreedy([z], request);
    NothingFree(CoresOf([z]), request.milliCPU);
    ResultIsPortions([z], request, Split([z], request));
    assert SortOf([z], [z]) && OutcomeOf([z], false, request, []);
  }

  lemma EntryTotal(name: string, given: Resource)
    requires given.milliCPU >= 0 && given.scalars == map[]
    ensures TotalCpu(Entry(name, given)) == given.milliCPU
  {
    var list := Recorded(given);
    assert Get(list, CPU) == given.milliCPU * MICRO;
    MilliValueOfMilli(given.milliCPU);
    SumOne(ResultZone(name, given), (z: Zone) => ZoneCpu(z));
    if given.milliCPU > 0 { assert CPU in list; }
  }

  /** Whatever the request, the CPU handed out and the CPU left over make up the CPU requested. */
  lemma {:induction false} SplitConserves(zones: seq<ZoneView>, request: Resource)
    requires AllSound(zones) && 0 <= request.milliCPU
    ensures TotalCpu(Split(zones, request)) + Remainder(zones, request).milliCPU == request.milliCPU
    ensures 0 <= Remainder(zones, request).milliCPU
  {
    if zones != [] {
      CoresFollowFree(zones[0]);
      if IsZero(request) {
        SplitConserves(zones[1..], request);
      } else {
        var given := Assigned(request, Floored(zones[0]));
        var rest := Rest(request, given);
        EntryTotal(zones[0].name, given);
        var tail := if Served(rest) then [] else Split(zones[1..], rest);
        SumAppend(Entry(zones[0].name, given), tail, (z: Zone) => ZoneCpu(z));
        if !Served(rest) { SplitConserves(zones[1..], rest); }
      }
    }
  }

  // ---------- optimality ----------

  function At(plan: map<string, int>, name: string): int {
    if name in plan then plan[name] else 0
  }

  /** plan hands out CPU by zone name, nowhere more than the whole cores that are free. */
  ghost predicate Feasible(plan: map<string, int>, zones: seq<ZoneView>) {
    forall z :: z in zones ==> 0 <= At(plan, z.name) <= Cores(z)
  }

  ghost function PlanTotal(plan: map<string, int>, zones: seq<ZoneView>): int {
    SumOf(zones, (z: ZoneView) => At(plan, z.name))
  }

  /** The zones a plan uses. */
  ghost function Used(plan: map<string, int>): set<string> {
    set n | n in plan && plan[n] > 0
  }

  lemma {:induction false} UsedZones(plan: map<string, int>, zones: seq<ZoneView>, among: set<string>)
    requires Distinct(Names(zones))
    requires forall i :: 0 <= i < |zones| && At(plan, zones[i].name) > 0 ==> zones[i].name in among
    ensures CountPositive(MapSeq(zones, (z: ZoneView) => At(plan, z.name))) <= |among|
  {
    var counts := MapSeq(zones, (z: ZoneView) => At(plan, z.name));
    if zones != [] {
      var name := zones[0].name;
      assert counts[1..] == MapSeq(zones[1..], (z: ZoneView) => At(plan, z.name));
      TailNames(zones, 0);
      if counts[0] > 0 {
        UsedZones(plan, zones[1..], among - {name});
        assert among == (among - {name}) + {name};
      } else {
        UsedZones(plan, zones[1..], among);
      }
    }
  }

  /** No plan that hands out as many cores uses fewer zones than the recorded result. */
  lemma FewestZones(zones: seq<ZoneView>, request: Resource, result: seq<Zone>, plan: map<string, int>)
    requires Ready(zones, request) && Accepts(zones, false, request, result)
    requires Feasible(plan, zones) && PlanTotal(plan, zones) >= TotalCpu(result)
    ensures |result| <= |Used(plan)|
  {
    var sorted := OrderBehind(zones, request, result);
    var share := (z: ZoneView) => At(plan, z.name);
    var counts := MapSeq(sorted, share);
    ResultIsPortions(sorted, request, result);
    SortKeeps(sorted, zones);
    SumPermutation(sorted, zones, share);
    TotalIsSum(sorted, share);
    GreedyUsesFewest(CoresOf(sorted), request.milliCPU, counts);
    UsedZones(plan, sorted, Used(plan));
  }

  /** The cores a result gives out, as a plan. */
  ghost function PlanOf(zones: seq<ZoneView>, result: seq<Zone>): map<string, int> {
    map n | n in Names(zones) :: CpuOn(result, n)
  }

  lemma {:induction false} AtMostPositive(plan: map<string, int>, zones: seq<ZoneView>, among: set<string>)
    requires forall n :: n in among ==> n in Names(zones) && At(plan, n) > 0
    ensures |among| <= CountPositive(MapSeq(zones, (z: ZoneView) => At(plan, z.name)))
  {
    if zones == [] {
      assert forall n :: n !in among;
      assert among == {};
    } else {
      var counts := MapSeq(zones, (z: ZoneView) => At(plan, z.name));
      var name := zones[0].name;
      assert counts[1..] == MapSeq(zones[1..], (z: ZoneView) => At(plan, z.name));
      assert Names(zones) == [name] + Names(zones[1..]);
      AtMostPositive(plan, zones[1..], among - {name});
      assert name in among ==> among == (among - {name}) + {name} && counts[0] > 0;
      assert name !in among ==> among == among - {name};
    }
  }

  lemma PlanShares(zones: seq<ZoneView>, request: Resource, result: seq<Zone>, sorted: seq<ZoneView>)
    requires Ready(zones, request) && SortOf(sorted, zones) && OutcomeOf(sorted, false, request, result)
    ensures MapSeq(sorted, (z: ZoneView) => At(PlanOf(zones, result), z.name)) == Amounts(sorted, request)
  {
    var plan := PlanOf(zones, result);
    SortKeeps(sorted, zones);
    SortKeepsSound(sorted, zones);
    forall i | 0 <= i < |sorted| ensures At(plan, sorted[i].name) == Amounts(sorted, request)[i] {
      var j :| 0 <= j < |zones| && zones[j] == sorted[i];
      assert Names(zones)[j] == sorted[i].name;
      SplitCpu(sorted, request, i);
      CpuOnPermutation(result, Split(sorted, request), sorted[i].name);
    }
  }

  /** The recorded result is itself a feasible plan, and uses no more zones than it has entries. */
  lemma ResultIsPlan(zones: seq<ZoneView>, request: Resource, result: seq<Zone>)
    requires Ready(zones, request) && Accepts(zones, false, request, result)
    ensures Feasible(PlanOf(zones, result), zones)
    ensures PlanTotal(PlanOf(zones, result), zones) == TotalCpu(result)
    ensures |Used(PlanOf(zones, result))| <= |result|
  {
    var plan := PlanOf(zones, result);
    var share := (z: ZoneView) => At(plan, z.name);
    var sorted: seq<ZoneView> :| SortOf(sorted, zones) && OutcomeOf(sorted, false, request, result);
    PlanShares(zones, request, result, sorted);
    SortKeeps(sorted, zones);
    SortKeepsSound(sorted, zones);
    SplitIsGreedy(sorted, request);
    ResultIsPortions(sorted, request, result);
    NonNegativeCores(sorted);
    TakeIsExact(CoresOf(sorted), request.milliCPU);
    forall z | z in zones ensures 0 <= At(plan, z.name) <= Cores(z) {
      var i :| 0 <= i < |sorted| && sorted[i] == z;
      assert MapSeq(sorted, share)[i] == Amounts(sorted, request)[i];
      assert CoresOf(sorted)[i] == Cores(z);
    }
    SumPermutation(sorted, zones, share);
    TotalIsSum(sorted, share);
    UsedAreNamed(plan, zones, sorted);
    AtMostPositive(plan, sorted, Used(plan));
  }

  lemma UsedAreNamed(plan: map<string, int>, zones: seq<ZoneView>, sorted: seq<ZoneView>)
    requires multiset(sorted) == multiset(zones) && forall n :: n in plan ==> n in Names(zones)
    ensures forall n :: n in Used(plan) ==> n in Names(sorted) && At(plan, n) > 0
  {
    SortKeeps(sorted, zones);
    forall n | n in Used(plan) ensures n in Names(sorted) && At(plan, n) > 0 {
      var j :| 0 <= j < |zones| && Names(zones)[j] == n;
      var i :| 0 <= i < |sorted| && sorted[i] == zones[j];
      assert Names(sorted)[i] == n;
    }
  }

  /** n zones can hold the request. */
  ghost predicate CanHold(zones: seq<ZoneView>, request: Resource, n: nat) {
    exists plan :: Feasible(plan, zones) && PlanTotal(plan, zones) >= request.milliCPU && |Used(plan)| == n
  }

  /** When the free cores suffice, the result has as many entries as the least number of zones that can hold it. */
  lemma ResultIsMinimal(zones: seq<ZoneView>, request: Resource, result: seq<Zone>)
    requires Ready(zones, request) && Accepts(zones, false, request, result)
    requires request.milliCPU <= WholeCores(zones)
    ensures CanHold(zones, request, |result|)
    ensures forall n: nat :: CanHold(zones, request, n) ==> |result| <= n
  {
    SplitIsExact(zones, request, result);
    ResultIsPlan(zones, request, result);
    FewestZones(zones, request, result, PlanOf(zones, result));
    forall n: nat | CanHold(zones, request, n) ensures |result| <= n {
      var plan :| Feasible(plan, zones) && PlanTotal(plan, zones) >= request.milliCPU && |Used(plan)| == n;
      FewestZones(zones, request, result, plan);
    }
  }

  // ---------- ties ----------

  lemma SameCores(a: seq<ZoneView>, b: seq<ZoneView>, zones: seq<ZoneView>)
    requires AllSound(zones) && Distinct(Names(zones)) && SortOf(a, zones) && SortOf(b, zones)
    ensures CoresOf(a) == CoresOf(b)
  {
    var free := (z: ZoneView) => Free(z);
    SortKeepsSound(a, zones);
    SortKeepsSound(b, zones);
    MapPermutation(a, b, free);
    SortedIsUnique(MapSeq(a, free), MapSeq(b, free));
    SameLength(a, b);
    forall i | 0 <= i < |a| ensures CoresOf(a)[i] == CoresOf(b)[i] {
      assert MapSeq(a, free)[i] == MapSeq(b, free)[i];
      CoresFollowFree(a[i]);
      CoresFollowFree(b[i]);
    }
  }

  lemma {:induction false} PortionAmounts(a: seq<ZoneView>, b: seq<ZoneView>, amounts: seq<int>)
    requires |a| == |b| == |amounts|
    ensures MapSeq(Portions(a, amounts), (z: Zone) => ZoneCpu(z))
      == MapSeq(Portions(b, amounts), (z: Zone) => ZoneCpu(z))
  {
    if a != [] {
      PortionAmounts(a[1..], b[1..], amounts[1..]);
      if amounts[0] > 0 {
        PortionCpu(a[0].name, amounts[0]);
        PortionCpu(b[0].name, amounts[0]);
      }
    }
  }

  /** Whatever order the sort leaves equal zones in, the walk assigns the same amounts one after the other. */
  lemma TiesDoNotMatter(zones: seq<ZoneView>, request: Resource, a: seq<ZoneView>, b: seq<ZoneView>)
    requires Ready(zones, request) && SortOf(a, zones) && SortOf(b, zones)
    ensures MapSeq(Split(a, request), (z: Zone) => ZoneCpu(z)) == MapSeq(Split(b, request), (z: Zone) => ZoneCpu(z))
    ensures |Split(a, request)| == |Split(b, request)|
  {
    SameCores(a, b, zones);
    SortKeepsSound(a, zones);
    SortKeepsSound(b, zones);
    SplitIsGreedy(a, request);
    SplitIsGreedy(b, request);
    PortionAmounts(a, b, Amounts(a, request));
    var cpu := (z: Zone) => ZoneCpu(z);
    assert |MapSeq(Split(a, request), cpu)| == |Split(a, request)|;
    assert |MapSeq(Split(b, request), cpu)| == |Split(b, request)|;
  }
}
